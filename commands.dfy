/** The command registry (`help`, `date`, `about`, `exit`), the tokenizer
    `input.split(' ')` and the dispatch rule that turns a submitted line into
    the scrollback lines that follow its echo. */
module Commands {
  import opened Text

  datatype Option<T> = None | Some(value: T)

  /** The four registered commands. */
  datatype CommandName = Help | Date | About | Exit

  /** The key under which each command sits in the registry. */
  function Name(c: CommandName): string {
    match c
    case Help => "help"
    case Date => "date"
    case About => "about"
    case Exit => "exit"
  }

  /** The markup a handler returns, with its literal copy abstracted to tags.
      `DateInfo` carries the formatted local time the host clock supplied. */
  datatype Markup = DateInfo(stamp: string) | AboutInfo | Farewell

  /** One line of scrollback, tagged by its role. */
  datatype Line =
    | Echo(command: string)       // the prompt followed by the submitted line
    | HelpListing                 // the command listing `help` appends itself
    | Rendered(markup: Markup)    // a handler's returned markup
    | NotFound(cmd: string)       // "<cmd>: command not found"

  /** What running a handler produces: the lines it appended to the
      scrollback on its own, and the value it returned (`None` for null). */
  datatype Outcome = Outcome(appended: seq<Line>, returned: Option<Markup>)

  /** Exact, case-sensitive registry lookup: `cmd` is found precisely when it
      is the name of a registered command, and then that command is found. */
  function Lookup(cmd: string): (r: Option<CommandName>)
    ensures forall c :: r == Some(c) <==> Name(c) == cmd
  {
    if cmd == "help" then Some(Help)
    else if cmd == "date" then Some(Date)
    else if cmd == "about" then Some(About)
    else if cmd == "exit" then Some(Exit)
    else None
  }

  /** Runs a handler. `help` is the one handler that writes to the scrollback
      itself, and it is exactly the one that returns null; every handler
      produces exactly one line one way or the other. The handlers ignore
      their arguments; `clock` is the formatted current time `date` shows. */
  function Execute(c: CommandName, args: seq<string>, clock: string): (o: Outcome)
    ensures o.returned == None <==> o.appended != []
    ensures o.returned == None <==> c == Help
    ensures |o.appended| + (if o.returned.Some? then 1 else 0) == 1
    ensures o.appended != [] ==> o.appended == [HelpListing]
    ensures c == Date ==> o.returned == Some(DateInfo(clock))
    ensures c == About ==> o.returned == Some(AboutInfo)
    ensures c == Exit ==> o.returned == Some(Farewell)
  {
    match c
    case Help => Outcome([HelpListing], None)
    case Date => Outcome([], Some(DateInfo(clock)))
    case About => Outcome([], Some(AboutInfo))
    case Exit => Outcome([], Some(Farewell))
  }

  /** `const [cmd, ...args] = input.split(' ')`: joining `cmd` and `args`
      with single spaces gives the input back, no token holds a space, and
      a trimmed non-empty input has a non-empty command word. */
  function Tokenize(input: string): (t: (string, seq<string>))
    ensures Join([t.0] + t.1, ' ') == input
    ensures ' ' !in t.0 && forall a :: a in t.1 ==> ' ' !in a
    ensures Trim(input) == input && input != "" ==> t.0 != ""
  {
    var pieces := Split(input, ' ');
    JoinSplit(input, ' ');
    SplitPiecesLackSeparator(input, ' ');
    assert [pieces[0]] + pieces[1..] == pieces;
    assert forall a :: a in pieces[1..] ==> a in pieces;
    FirstPieceOfTrimmed(input);
    (pieces[0], pieces[1..])
  }

  /** The command word of a line: the first piece of `input.split(' ')`. */
  function CommandWord(input: string): string {
    Split(input, ' ')[0]
  }

  /** A trimmed non-empty line starts with a non-space character, so its
      first piece is not empty. */
  lemma FirstPieceOfTrimmed(input: string)
    ensures Trim(input) == input && input != "" ==> Split(input, ' ')[0] != ""
  {
    if Trim(input) == input && input != "" {
      TrimFixedPoint(input);
      assert input == [input[0]] + input[1..];
    }
  }

  /** The reply line for a command word, read straight off the table of
      commands: the reference the registry-and-handler path is checked
      against. */
  function Reply(cmd: string, clock: string): Line {
    if cmd == "help" then HelpListing
    else if cmd == "date" then Rendered(DateInfo(clock))
    else if cmd == "about" then Rendered(AboutInfo)
    else if cmd == "exit" then Rendered(Farewell)
    else NotFound(cmd)
  }

  /** Lines 76-89 of the key handler, after the echo: the lines a submitted
      line adds to the scrollback. Looking the command word up, running the
      handler and appending its result when it is not null adds, for any
      non-empty line, exactly the one reply line the table gives for the
      command word (the help listing, the handler's markup, or the
      not-found line naming the word), and nothing for the empty line. */
  function Dispatch(input: string, clock: string): (lines: seq<Line>)
    ensures lines == if input == "" then [] else [Reply(CommandWord(input), clock)]
  {
    var (cmd, args) := Tokenize(input);
    assert cmd == CommandWord(input);
    match Lookup(cmd)
    case Some(c) =>
      assert Name(c) == cmd;
      var o := Execute(c, args, clock);
      o.appended + (if o.returned.Some? then [Rendered(o.returned.value)] else [])
    case None =>
      if input != "" then [NotFound(cmd)] else []
  }
}
