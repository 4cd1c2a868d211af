# Terminal-style web page: the keydown interpreter

The page `docs/script.js` shows a text input styled as a terminal. Its one
piece of logic is the `keydown` handler on that input and the small command
interpreter it drives:

- a history of submitted lines (`commandHistory`) and a recall cursor
  (`historyIndex`), which starts at -1;
- the input buffer (`terminalInput.value`);
- the scrollback (`terminalOutput`), an ordered list of appended lines;
- a registry of exactly four commands: `help`, `date`, `about` and `exit`.

Enter trims the buffer. A non-empty result is pushed onto the history, the
cursor moves past the last entry, and the command is echoed. The line is then
tokenized with `split(' ')` and its first word is looked up in the registry.
The handler's result is appended if it is truthy; an unknown word gets a
`<cmd>: command not found` line. The buffer is then cleared. `help` appends its
listing itself and returns null. ArrowUp and ArrowDown walk the cursor through
the history. Ctrl+L empties the scrollback.

The project has three modules:

- `Text` (`text.dfy`): `trim`, `split` with a one-character separator, and
  `join`. Both halves of the split/join round trip are proved.
- `Commands` (`commands.dfy`): the registry, the handlers and the tokenizer,
  plus `Dispatch`, which turns a submitted line into the lines that follow
  its echo. Dispatch is proved equal to `Reply`, a plain table from command
  word to reply line.
- `Interpreter` (`interpreter.dfy`): the session state as a value
  (`Session`), one step function per key, and the class `Terminal`.
  `Terminal` holds the four pieces of state in fields and updates them in
  place, statement for statement as the handler does. Each of its methods is
  proved to perform the matching step. `Run` processes a sequence of events,
  and the lemmas about runs give the multi-step properties: the history is
  append-only, a submitted line can be recalled, and ArrowUp walks back
  through the history.

The cursor invariant is `SessionInvariant`:

- `-1 <= cursor <= |history|`;
- the cursor is -1 only while the history is empty;
- every history entry is non-empty and trimmed.

Every step preserves it. The two reads `commandHistory[historyIndex]` need
only the first clause (`CursorInRange`) to be in bounds, and the step
functions require exactly that.

Host inputs are parameters:

- The time that `date` shows is a `clock` string. Each key event carries the
  already formatted local time.
- The browser's own editing of the input field is the `Typed` event
  (`Edit`, `Terminal.Type`). The handler leaves every key other than the four
  intercepted chords to the browser.

The cursor starts at -1 (line 6), so the invariant allows -1 while nothing
has been submitted. An Enter on a blank buffer leaves it at -1. After the
first ArrowDown, or the first Enter that submits a line, it is never
negative again. The page registers only `help`, `date`, `about` and `exit` (lines
8-56), and the model has only those.

## Model

| member | source | states |
|---|---|---|
| Text.Trim | docs/script.js:61 | `trim()` leaves no whitespace at either end of the line |
| Text.TrimStartIsSuffix | docs/script.js:61 | stripping leading whitespace leaves the longest suffix that does not start with whitespace, and only whitespace was removed |
| Text.TrimEndIsPrefix | docs/script.js:61 | stripping trailing whitespace leaves the longest prefix that does not end with whitespace, and only whitespace was removed |
| Text.TrimIsSlice | docs/script.js:61-63 | the trimmed line is a contiguous slice of the buffer with only whitespace outside it; it is empty (Enter does nothing) exactly when the buffer is all whitespace |
| Text.TrimFixedPoint | docs/script.js:61 | a string is its own trim exactly when it has no whitespace at either end |
| Text.TrimIdempotent | docs/script.js:61 | trimming twice is trimming once |
| Text.Split | docs/script.js:74 | `split(' ')` always yields at least one piece |
| Text.SplitPiecesLackSeparator | docs/script.js:74 | no piece of the split contains the separator |
| Text.JoinSplit | docs/script.js:74 | joining the split pieces with the separator gives the original line back |
| Text.SplitJoin | docs/script.js:74 | splitting the join of one or more separator-free pieces gives those pieces back |
| Commands.Lookup | docs/script.js:8-56 | registry lookup is exact, case-sensitive membership: a word is found exactly when it is one of `help`, `date`, `about`, `exit`, and then it finds that command |
| Commands.Execute | docs/script.js:8-56 | a handler returns null exactly when it appended to the scrollback itself, which only `help` does (lines 11-20); every handler yields exactly one line; `date` returns the clock's time, `about` its profile markup and `exit` its farewell line |
| Commands.Tokenize | docs/script.js:74 | `[cmd, ...args]` joined with spaces is the input; no token holds a space; a trimmed non-empty input has a non-empty `cmd` |
| Commands.FirstPieceOfTrimmed | docs/script.js:61-74 | the first piece of a trimmed non-empty line is non-empty |
| Commands.Dispatch | docs/script.js:73-89 | lookup, execution and the truthy-result rule together append, for any non-empty line, exactly the one reply line for its command word: the help listing, the handler's markup, or `<cmd>: command not found`; nothing for the empty line |
| Interpreter.Initial | docs/script.js:5-6 | the page starts with empty history and the cursor at -1, which satisfies the invariant |
| Interpreter.Submit | docs/script.js:59-93 | Enter on a blank buffer changes nothing; otherwise it appends exactly the trimmed line to the history, sets the cursor to the new length, clears the buffer, appends the echo and the reply, and keeps the invariant |
| Interpreter.RecallPrevious | docs/script.js:94-99 | ArrowUp with cursor > 0 decrements it and shows `history[cursor]`, a trimmed non-empty entry; with cursor <= 0 it changes nothing; history and scrollback untouched; invariant kept |
| Interpreter.RecallNext | docs/script.js:100-108 | ArrowDown with cursor < `|history| - 1` increments it and shows `history[cursor]`; otherwise it sets the cursor to `|history|` and empties the buffer; history and scrollback untouched; invariant kept |
| Interpreter.ClearScreen | docs/script.js:109-111 | Ctrl+L empties the scrollback and leaves history, cursor and buffer unchanged |
| Interpreter.Edit | docs/script.js:58-113 | ordinary typing, left to the browser, changes only the buffer |
| Interpreter.Classify | docs/script.js:59-109 | the handler's branches are disjoint: Enter and the arrows are recognised regardless of Ctrl, the clear chord only as Ctrl with lower-case `l` |
| Interpreter.KeyStep | docs/script.js:58-113 | any keydown keeps the invariant and extends the history at its end by at most one entry; unintercepted keys change nothing |
| Interpreter.Run | docs/script.js:58-113 | events are processed in order from a session satisfying the invariant; every history read along the way is in bounds, the invariant holds at the end, and the old history is a prefix of the new one |
| Interpreter.CursorStaysNonNegative | docs/script.js:6-108 | once the cursor is non-negative, no sequence of keydowns and edits makes it negative again (that the first ArrowDown, or the first Enter that submits a line, makes it non-negative follows from `RecallNext` and `Submit`) |
| Interpreter.HistoryAfterSubmissions | docs/script.js:61-65 | after typing and submitting a list of lines, the history has gained exactly the trimmed non-blank ones, in order, with duplicates kept |
| Interpreter.RecallWalk | docs/script.js:94-99 | from a fresh line, the k-th ArrowUp shows the k-th most recent entry, and further presses stay on the oldest |
| Interpreter.RecallWalkFrom | docs/script.js:94-99 | k presses of ArrowUp lower the cursor by k but not below 0, and show the entry the cursor lands on |
| Interpreter.RecallRoundTrip | docs/script.js:59-108 | submit a line, press ArrowUp, and the buffer holds the trimmed line; press ArrowDown after that and the buffer is empty |
| Interpreter.ResubmitRecalled | docs/script.js:61-64 | resubmitting a recalled entry appends that same entry again, unchanged |
| Interpreter.Terminal.constructor | docs/script.js:5-6 | a new terminal is in the initial state |
| Interpreter.Terminal.Type | docs/script.js:58-113 | the browser's editing sets the buffer, nothing else |
| Interpreter.Terminal.Enter | docs/script.js:59-93 | the in-place Enter branch performs `Submit` and keeps the invariant |
| Interpreter.Terminal.Process | docs/script.js:73-89 | the in-place tokenize, look up, run and append sequence appends exactly `Dispatch` of the line |
| Interpreter.Terminal.ArrowUp | docs/script.js:94-99 | the in-place ArrowUp branch performs `RecallPrevious`; its history read is in bounds |
| Interpreter.Terminal.ArrowDown | docs/script.js:100-108 | the in-place ArrowDown branch performs `RecallNext`; its history read is in bounds |
| Interpreter.Terminal.CtrlL | docs/script.js:109-111 | the in-place clear performs `ClearScreen` |
| Interpreter.Terminal.KeyDown | docs/script.js:58-113 | the handler performs `KeyStep` and suppresses the default action exactly for the four intercepted chords, including Enter on a blank line |
| Interpreter.SubmitAndRecall | docs/script.js:59-108 | on a fresh terminal, submitting a line, then ArrowUp, then ArrowDown: the history holds exactly the accepted line, the scrollback holds its echo and reply, ArrowUp recalls it and ArrowDown clears the buffer |

## Left out

- DOM construction and rendering are not modelled: `createElement`, the `innerHTML` markup strings and their CSS classes. Scrollback lines are the tagged values of `Line`.
- The line and command word are interpolated into `innerHTML` unescaped (lines 70 and 87), so markup typed by the user is rendered as markup. Rendering is outside the model.
- The initial contents of the scrollback and the input field are set by the page's HTML markup, which is not part of this model. The model takes both to be empty (`Initial`, `Terminal.constructor`); every proved property is stated relative to the scrollback as it was, so none depends on this.
- Scrolling to the newest line (line 92), the focus handler (lines 116-118) and the window-control buttons (lines 121-142) are presentation only.
- `date` formatting via `toLocaleString('ja-JP', …)` (lines 26-35) reads the clock and a locale library. The model takes the formatted string as the `clock` parameter.
- The delayed `window.open` scheduled by `exit` (lines 50-52) is left out. It is a timer plus browser navigation, and it does not affect the terminal's state. Only the farewell line that `exit` returns is kept.
- The literal HTML and Japanese copy of the `help` and `about` output is abstracted to the tags `HelpListing` and `AboutInfo`. The `description` fields of the registry (lines 10, 24, 39, 48) are never read by the handler and are not modelled.
- Commands.Execute: the "truthy" test on a handler's result (line 78) is modelled as "not null". Every handler here returns either null or a non-empty markup string, so an empty-string result, which is also falsy, cannot occur.
- Commands.Lookup: plain-object lookup `commands[cmd]` would also find inherited names such as `toString` or `constructor`. The model treats lookup as exact membership in the four registered names. For such a name, `commands[cmd].execute` is undefined and line 77 throws a TypeError. By then the line is in the history (line 64), the cursor has moved (line 65) and the echo is appended (line 71), but the buffer is never cleared (line 91). The model instead answers with `<cmd>: command not found` and clears the buffer.
- Text: JavaScript strings are sequences of UTF-16 code units, while a Dafny `char` is a Unicode scalar value, so a lone surrogate cannot be represented. `trim` and `split(' ')` behave the same either way, because every whitespace code point and the space are non-surrogate characters of the Basic Multilingual Plane.
- Text.IsWhitespace is the fixed list of code points in ECMAScript's WhiteSpace and LineTerminator productions, as of current Unicode. Changes to the Unicode space-separator category in later versions are not tracked.
- A JavaScript out-of-range array read yields `undefined`. The model never performs one: `CursorInRange` is required by the recall steps and implied by the proved invariant.
- The `else if (input !== '')` guard (line 84) is always true at that point, because the surrounding `if (input)` has already excluded the empty line. It is modelled as written.
