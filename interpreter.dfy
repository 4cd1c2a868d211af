/** The keydown state machine of the terminal page: the history list, the
    recall cursor, the input buffer and the scrollback, and what Enter,
    ArrowUp, ArrowDown and Ctrl+L do to them. `Session` and the step
    functions say what each key does; the class `Terminal` holds the state
    in fields and updates them in place as the page's handler does, and each
    of its methods is proved to perform the corresponding step. */
module Interpreter {
  import opened Text
  import opened Commands

  /** `commandHistory`, `historyIndex`, `terminalInput.value` and the lines
      of `terminalOutput`. */
  datatype Session = Session(history: seq<string>, cursor: int, buffer: string, output: seq<Line>)

  /** The page as loaded: empty history, cursor at -1, nothing typed, no
      scrollback. */
  function Initial(): (s: Session)
    ensures SessionInvariant(s) && s.cursor == -1
  {
    Session([], -1, "", [])
  }

  /** The range in which both history reads of the recall keys,
      `commandHistory[historyIndex]` after a decrement or an increment, are
      in bounds. */
  predicate CursorInRange(s: Session) {
    -1 <= s.cursor <= |s.history|
  }

  /** What every reachable session satisfies: the cursor is in range, it is
      -1 only while nothing has been submitted, and every history entry is a
      non-empty line with no whitespace at either end (one that `Trim`
      leaves as it is, by `TrimFixedPoint`). */
  predicate SessionInvariant(s: Session) {
    && CursorInRange(s)
    && (s.history != [] ==> 0 <= s.cursor)
    && forall i :: 0 <= i < |s.history| ==> s.history[i] != "" && IsTrimmed(s.history[i])
  }

  /** Enter. A buffer that trims to nothing changes nothing. Otherwise the
      trimmed line is appended to the history, the cursor moves past the
      last entry, the buffer is cleared, and exactly two lines are appended
      to the scrollback: the echo of the line and the reply to its command
      word. */
  function Submit(s: Session, clock: string): (t: Session)
    ensures Trim(s.buffer) == "" ==> t == s
    ensures Trim(s.buffer) != "" ==>
              && t.history == s.history + [Trim(s.buffer)]
              && t.cursor == |t.history|
              && t.buffer == ""
              && t.output == s.output + [Echo(Trim(s.buffer)), Reply(CommandWord(Trim(s.buffer)), clock)]
    ensures SessionInvariant(s) ==> SessionInvariant(t)
  {
    var input := Trim(s.buffer);
    if input != "" then
      var history := s.history + [input];
      Session(history, |history|, "", s.output + [Echo(input)] + Dispatch(input, clock))
    else
      s
  }

  /** ArrowUp. When the cursor is past the first entry it steps back one
      and the buffer shows that entry, a line submitted earlier; otherwise
      nothing changes. History and scrollback are never touched. */
  function RecallPrevious(s: Session): (t: Session)
    requires CursorInRange(s)
    ensures t.history == s.history && t.output == s.output
    ensures s.cursor > 0 ==> t.cursor == s.cursor - 1 && t.buffer == s.history[t.cursor]
    ensures s.cursor <= 0 ==> t == s
    ensures SessionInvariant(s) ==> SessionInvariant(t)
    ensures SessionInvariant(s) && s.cursor > 0 ==> t.buffer != "" && IsTrimmed(t.buffer)
  {
    if s.cursor > 0 then
      var cursor := s.cursor - 1;
      s.(cursor := cursor, buffer := s.history[cursor])
    else
      s
  }

  /** ArrowDown. When the cursor is before the last entry it steps forward
      one and the buffer shows that entry; otherwise the cursor moves past
      the last entry and the buffer is emptied. History and scrollback are
      never touched. */
  function RecallNext(s: Session): (t: Session)
    requires CursorInRange(s)
    ensures t.history == s.history && t.output == s.output
    ensures s.cursor < |s.history| - 1 ==> t.cursor == s.cursor + 1 && t.buffer == s.history[t.cursor]
    ensures s.cursor >= |s.history| - 1 ==> t.cursor == |s.history| && t.buffer == ""
    ensures SessionInvariant(s) ==> SessionInvariant(t)
  {
    if s.cursor < |s.history| - 1 then
      var cursor := s.cursor + 1;
      s.(cursor := cursor, buffer := s.history[cursor])
    else
      s.(cursor := |s.history|, buffer := "")
  }

  /** Ctrl+L. The scrollback is emptied; history, cursor and buffer stay. */
  function ClearScreen(s: Session): (t: Session)
    ensures t.output == []
    ensures t.history == s.history && t.cursor == s.cursor && t.buffer == s.buffer
    ensures SessionInvariant(s) ==> SessionInvariant(t)
  {
    s.(output := [])
  }

  /** Ordinary editing, which the handler leaves to the browser: the input
      field's value becomes whatever the user has typed. */
  function Edit(s: Session, text: string): (t: Session)
    ensures t.buffer == text
    ensures t.history == s.history && t.cursor == s.cursor && t.output == s.output
    ensures SessionInvariant(s) ==> SessionInvariant(t)
  {
    s.(buffer := text)
  }

  /** Which branch of the handler a key event takes. */
  datatype KeyAction = EnterKey | UpKey | DownKey | ClearKey | OtherKey

  /** The `if` chain of the handler on `e.key` and `e.ctrlKey`. The branches
      are disjoint, so its order does not matter: Enter and the arrows are
      recognised with or without Ctrl, the clear chord only as Ctrl with a
      lower-case "l", and every other event is left to the browser. */
  function Classify(key: string, ctrlKey: bool): (a: KeyAction)
    ensures a == EnterKey <==> key == "Enter"
    ensures a == UpKey <==> key == "ArrowUp"
    ensures a == DownKey <==> key == "ArrowDown"
    ensures a == ClearKey <==> ctrlKey && key == "l"
  {
    if key == "Enter" then EnterKey
    else if key == "ArrowUp" then UpKey
    else if key == "ArrowDown" then DownKey
    else if ctrlKey && key == "l" then ClearKey
    else OtherKey
  }

  /** One keydown event. Every step keeps the invariant and only ever
      extends the history, by at most one entry. */
  function KeyStep(s: Session, key: string, ctrlKey: bool, clock: string): (t: Session)
    requires CursorInRange(s)
    ensures SessionInvariant(s) ==> SessionInvariant(t)
    ensures s.history <= t.history && |t.history| <= |s.history| + 1
    ensures Classify(key, ctrlKey) == OtherKey ==> t == s
  {
    match Classify(key, ctrlKey)
    case EnterKey => Submit(s, clock)
    case UpKey => RecallPrevious(s)
    case DownKey => RecallNext(s)
    case ClearKey => ClearScreen(s)
    case OtherKey => s
  }

  /** The events the page sees: a keydown (with the formatted time at which
      it happened, which `date` shows) or the browser's own editing of the
      input field. */
  datatype Event = Key(key: string, ctrlKey: bool, clock: string) | Typed(text: string)

  function Step(s: Session, e: Event): Session
    requires CursorInRange(s)
  {
    match e
    case Key(key, ctrlKey, clock) => KeyStep(s, key, ctrlKey, clock)
    case Typed(text) => Edit(s, text)
  }

  /** Events processed strictly in order. From a session satisfying the
      invariant, the history read at any point is in bounds, the invariant
      holds at the end, and the history has only grown at its end. */
  function Run(s: Session, events: seq<Event>): (t: Session)
    requires SessionInvariant(s)
    ensures SessionInvariant(t)
    ensures s.history <= t.history
    decreases |events|
  {
    if events == [] then s
    else Run(Step(s, events[0]), events[1..])
  }

  /** The cursor is -1 only on a fresh page: once it is non-negative (after
      the first Enter that submits or the first ArrowDown), no sequence of
      events makes it negative again. */
  lemma {:induction false} CursorStaysNonNegative(s: Session, events: seq<Event>)
    requires SessionInvariant(s) && s.cursor >= 0
    ensures Run(s, events).cursor >= 0
    decreases |events|
  {
    if events != [] {
      CursorStaysNonNegative(Step(s, events[0]), events[1..]);
    }
  }

  /** The history entries a sequence of submitted buffers leaves behind:
      each buffer trimmed, the blank ones dropped. */
  function Accepted(lines: seq<string>): seq<string> {
    if lines == [] then []
    else (if Trim(lines[0]) == "" then [] else [Trim(lines[0])]) + Accepted(lines[1..])
  }

  /** Typing each line and pressing Enter. */
  function SubmitEach(lines: seq<string>, clock: string): (events: seq<Event>)
    ensures |events| == 2 * |lines|
  {
    if lines == [] then []
    else [Typed(lines[0]), Key("Enter", false, clock)] + SubmitEach(lines[1..], clock)
  }

  /** The history is append-only and order-preserving: after submitting
      `lines`, it holds exactly the trimmed non-blank lines, in order and
      with duplicates kept, after what it held before. */
  lemma {:induction false} HistoryAfterSubmissions(s: Session, lines: seq<string>, clock: string)
    requires SessionInvariant(s)
    ensures Run(s, SubmitEach(lines, clock)).history == s.history + Accepted(lines)
    decreases |lines|
  {
    if lines == [] {
      assert SubmitEach(lines, clock) == [];
      assert s.history + [] == s.history;
    } else {
      var events := SubmitEach(lines, clock);
      var typed := Edit(s, lines[0]);
      var entered := Submit(typed, clock);
      var head := if Trim(lines[0]) == "" then [] else [Trim(lines[0])];
      assert entered.history == s.history + head;
      assert Accepted(lines) == head + Accepted(lines[1..]);
      assert events[0] == Typed(lines[0]);
      assert events[1..][0] == Key("Enter", false, clock);
      assert events[1..][1..] == SubmitEach(lines[1..], clock);
      assert Run(s, events) == Run(typed, events[1..]);
      assert Run(typed, events[1..]) == Run(entered, SubmitEach(lines[1..], clock));
      HistoryAfterSubmissions(entered, lines[1..], clock);
      ConcatAssoc(s.history, head, Accepted(lines[1..]));
    }
  }

  /** Regrouping a three-way concatenation. Kept as a separate lemma so
      that `HistoryAfterSubmissions` uses the fact without the solver
      searching for it among the unfolded runs. */
  lemma ConcatAssoc<T>(a: seq<T>, b: seq<T>, c: seq<T>)
    ensures (a + b) + c == a + (b + c)
  {
  }

  /** `n` presses of ArrowUp. */
  function Ups(n: nat): (events: seq<Event>)
    ensures |events| == n
  {
    if n == 0 then [] else [Key("ArrowUp", false, "")] + Ups(n - 1)
  }

  /** Recall walks back through the history: from a fresh line, the `k`-th
      press of ArrowUp shows the `k`-th most recent entry (for `k` up to the
      length of the history), and further presses stay on the oldest. */
  lemma {:induction false} RecallWalk(s: Session, k: nat)
    requires SessionInvariant(s) && s.cursor == |s.history|
    ensures var t := Run(s, Ups(k));
            && (1 <= k <= |s.history| ==> t.cursor == |s.history| - k && t.buffer == s.history[t.cursor])
            && (k > |s.history| > 0 ==> t.cursor == 0 && t.buffer == s.history[0])
            && t.history == s.history && t.output == s.output
  {
    if k > 0 {
      RecallWalkFrom(s, k);
    }
  }

  /** From any cursor position, `k` presses of ArrowUp move the cursor down
      by `k` but not below 0, showing the entry it lands on. */
  lemma {:induction false} RecallWalkFrom(s: Session, k: nat)
    requires SessionInvariant(s) && 0 <= s.cursor
    ensures var t := Run(s, Ups(k));
            && t.history == s.history && t.output == s.output
            && t.cursor == (if k <= s.cursor then s.cursor - k else 0)
            && (k > 0 && s.cursor > 0 ==> t.buffer == s.history[t.cursor])
            && (s.cursor == 0 ==> t.buffer == s.buffer)
    decreases k
  {
    if k > 0 {
      var up := RecallPrevious(s);
      assert Ups(k)[0] == Key("ArrowUp", false, "") && Ups(k)[1..] == Ups(k - 1);
      assert Run(s, Ups(k)) == Run(up, Ups(k - 1));
      RecallWalkFrom(up, k - 1);
    }
  }

  /** Submitting a line, then ArrowUp, brings the trimmed line back into the
      buffer; ArrowDown after that empties it again. */
  lemma RecallRoundTrip(s: Session, line: string, clock: string)
    requires SessionInvariant(s) && Trim(line) != ""
    ensures var up := Run(s, [Typed(line), Key("Enter", false, clock), Key("ArrowUp", false, clock)]);
            && up.buffer == Trim(line)
            && Step(up, Key("ArrowDown", false, clock)).buffer == ""
  {
    var typed := Edit(s, line);
    var entered := Submit(typed, clock);
    var up := RecallPrevious(entered);
    var events := [Typed(line), Key("Enter", false, clock), Key("ArrowUp", false, clock)];
    assert Run(s, events) == Run(typed, events[1..]);
    assert Run(typed, events[1..]) == Run(entered, events[2..]);
    assert Run(entered, events[2..]) == Run(up, []);
  }

  /** Recalling an entry with ArrowUp and pressing Enter stores that entry
      again, unchanged: entries are already trimmed, and trimming leaves a
      trimmed line alone. Duplicates are kept. */
  lemma ResubmitRecalled(s: Session, clock: string)
    requires SessionInvariant(s) && s.cursor > 0
    ensures Submit(RecallPrevious(s), clock).history == s.history + [s.history[s.cursor - 1]]
  {
    var up := RecallPrevious(s);
    TrimFixedPoint(up.buffer);
  }

  /** The session object of the page, updated in place by the keydown
      handler. */
  class Terminal {
    var history: seq<string>
    var cursor: int
    var buffer: string
    var output: seq<Line>

    function State(): Session
      reads this
    {
      Session(history, cursor, buffer, output)
    }

    ghost predicate Valid()
      reads this
    {
      SessionInvariant(State())
    }

    constructor ()
      ensures Valid() && State() == Initial()
    {
      history := [];
      cursor := -1;
      buffer := "";
      output := [];
    }

    /** The browser's own editing of the input field. */
    method Type(text: string)
      requires Valid()
      modifies this
      ensures Valid() && State() == Edit(old(State()), text)
    {
      buffer := text;
    }

    /** Lines 59-93 of the handler. */
    method Enter(clock: string)
      requires Valid()
      modifies this
      ensures Valid() && State() == Submit(old(State()), clock)
    {
      var input := Trim(buffer);
      if input != "" {
        history := history + [input];
        cursor := |history|;
        output := output + [Echo(input)];
        Process(input, clock);
        buffer := "";
      }
    }

    /** Lines 73-89 of the handler: tokenizes the submitted line, looks the
        command word up and appends what it produces, in place. */
    method Process(input: string, clock: string)
      modifies this`output
      ensures output == old(output) + Dispatch(input, clock)
    {
      var (cmd, args) := Tokenize(input);
      match Lookup(cmd) {
        case Some(c) =>
          var o := Execute(c, args, clock);
          output := output + o.appended;
          if o.returned.Some? {
            output := output + [Rendered(o.returned.value)];
          }
        case None =>
          if input != "" {
            output := output + [NotFound(cmd)];
          }
      }
    }

    /** Lines 94-99 of the handler. */
    method ArrowUp()
      requires Valid()
      modifies this
      ensures Valid() && State() == RecallPrevious(old(State()))
    {
      if cursor > 0 {
        cursor := cursor - 1;
        buffer := history[cursor];
      }
    }

    /** Lines 100-108 of the handler. */
    method ArrowDown()
      requires Valid()
      modifies this
      ensures Valid() && State() == RecallNext(old(State()))
    {
      if cursor < |history| - 1 {
        cursor := cursor + 1;
        buffer := history[cursor];
      } else {
        cursor := |history|;
        buffer := "";
      }
    }

    /** Lines 109-111 of the handler. */
    method CtrlL()
      requires Valid()
      modifies this
      ensures Valid() && State() == ClearScreen(old(State()))
    {
      output := [];
    }

    /** The handler itself: runs the branch the event selects and reports
      whether it suppressed the browser's default action, which it does for
      exactly the four intercepted chords (Enter even when nothing is
      submitted). */
    method KeyDown(key: string, ctrlKey: bool, clock: string) returns (prevented: bool)
      requires Valid()
      modifies this
      ensures Valid() && State() == KeyStep(old(State()), key, ctrlKey, clock)
      ensures prevented <==> Classify(key, ctrlKey) != OtherKey
    {
      prevented := true;
      if key == "Enter" {
        Enter(clock);
      } else if key == "ArrowUp" {
        ArrowUp();
      } else if key == "ArrowDown" {
        ArrowDown();
      } else if ctrlKey && key == "l" {
        CtrlL();
      } else {
        prevented := false;
      }
    }
  }

  /** A client of the class: on a fresh page, type `line`, press Enter,
      ArrowUp, ArrowDown. ArrowUp recalls the trimmed line and ArrowDown
      returns to an empty buffer; the history holds just that line and the
      scrollback its echo and reply. */
  method SubmitAndRecall(line: string, clock: string) returns (recalled: string, afterDown: string, history: seq<string>, output: seq<Line>)
    ensures Trim(line) != "" ==> recalled == Trim(line) && afterDown == ""
    ensures history == Accepted([line])
    ensures Trim(line) != "" ==> output == [Echo(Trim(line)), Reply(CommandWord(Trim(line)), clock)]
    ensures Trim(line) == "" ==> recalled == line && output == []
  {
    var t := new Terminal();
    t.Type(line);
    t.Enter(clock);
    t.ArrowUp();
    recalled := t.buffer;
    t.ArrowDown();
    afterDown := t.buffer;
    history := t.history;
    output := t.output;
  }
}
