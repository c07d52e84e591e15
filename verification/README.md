# Terminal portfolio: a Dafny model

This project models the browser terminal of the `terminal-portfolio` site, a
single React component in `src/components/Terminal.jsx`. It covers three
pieces:

- **Line classifier (`renderLine`).** Each transcript line is shown as one of
  these kinds:
  - an echoed command (the line starts with `> `);
  - an error (the line contains `Oops!`);
  - a heading (the line ends in `...` or is `COMMANDS LIST:`);
  - a help entry (split into name, separator and description);
  - plain text.
- **Command dispatcher (the `switch` in `handleCommand`).** The typed text is
  lower-cased and trimmed, then looked up among eight command names:
  - `clear` resets the screen to the welcome text;
  - the other seven commands print a fixed table;
  - anything else prints a two-line complaint that quotes the text exactly as
    typed.
- **Typing animator (`typeLines`).** It reveals lines into the transcript one
  character at a time:
  - 2 ms per character on lines longer than 50 characters, 5 ms otherwise;
  - 50 ms after each line.

  The animator locks the input while it runs. Before every change to the
  transcript, and before releasing the lock, it checks whether its display is
  still mounted, and it stops for good the first time it finds the display
  gone.

The modules follow that structure:

| module | file | models |
|---|---|---|
| `Wrappers` | `wrappers.dfy` | `Option` |
| `Text` | `text.dfy` | the JavaScript string primitives used: `trim`, `toLowerCase`, `startsWith`, `endsWith`, `includes`, and the whitespace class `\s` |
| `Classifier` | `classifier.dfy` | `renderLine`, as written (`Classify`) and as evidently intended (`ClassifyIntended`) |
| `Commands` | `commands.dfy` | the command table, normalisation and `Dispatch` |
| `Animator` | `animator.dfy` | `typeLines` as a small-step machine |
| `TerminalComponent` | `terminal.dfy` | the component: mount, the input's change and key-down handlers, and the running session |

**Timers, unmounting and time.** These become explicit:

- One step of `Animator.Step` is the code that runs synchronously from the
  end of one `await` to the start of the next. The program counter `Pc`
  names the pause the session is waiting in.
- `Animator.Begin` is the call itself, up to its first pause. By then the
  session has taken the lock, tested liveness, appended `""` and written the
  first character of the first line, all before its caller regains control.
- The environment drives a session with a schedule of signals:
  - `Tick` lets the session take one step;
  - `Unmount` clears its liveness flag (`Animator.TearDown`). It can happen
    between any two steps, which is while the session is paused, since
    nothing else runs during a step.
- Time is an integer clock, advanced by each pause.

**The component.** `TerminalComponent.Terminal` holds:

- the input text;
- the transcript the running session started on;
- the lines it types;
- the session's state, which carries the transcript and the input lock.

It reacts to three events:

- `Edit` is the input's `onChange`;
- `KeyDown` is `onKeyDown`;
- `Elapse` is one step of the session.

A disabled input fires no events. So while the lock is held, `Edit` and
`KeyDown` change nothing.

## Model

| member | source | states |
|---|---|---|
| Text.IsSpace | src/components/Terminal.jsx:40-41 | the ECMAScript WhiteSpace and LineTerminator code points, the set `trim` strips and `\s` matches. It is a definition with no contract of its own. `Text.TrimStart`, `Text.TrimEnd` and `Classifier.SeparatorAt` are built on it |
| Text.StartsWith | src/components/Terminal.jsx:14 | `startsWith`: the string's prefix of the pattern's length is the pattern. It is a definition with no contract of its own. `Classifier.ClassifyPrecedence` and `Classifier.EchoRoundTrip` use it for the `> ` test, and `Classifier.EntryUnreachable` for the test on line 40 |
| Text.EndsWith | src/components/Terminal.jsx:31 | `endsWith`: the string's suffix of the pattern's length is the pattern. It is a definition with no contract of its own. `Classifier.ClassifyPrecedence`, `Commands.TitleLine` and `Commands.CaptionLine` use it for the `...` test |
| Text.Contains | src/components/Terminal.jsx:26 | `includes`: the pattern occurs at some index. It is a definition with no contract of its own. `Text.MissingCharNotContained` states when it fails, and `Classifier.ClassifyPrecedence` and `Commands.NotFoundIsError` use it for the `Oops!` test; the ` - ` test on line 40 is the other use |
| Text.Lower | src/components/Terminal.jsx:165 | `toLowerCase` on ASCII letters, mapping each character on its own. It is a definition with no contract of its own. `Text.LowerAppend`, `Text.LowerSlice`, `Text.LowerKeepsSpace` and `Text.LowerCharSpace` state its properties |
| Text.TrimStart | src/components/Terminal.jsx:40 | the leading part of `trim`: the result is a suffix of the input, everything cut off is whitespace, and the result does not start with whitespace |
| Text.TrimEnd | src/components/Terminal.jsx:40 | the trailing part of `trim`: the result is a prefix of the input, everything cut off is whitespace, and the result does not end with whitespace |
| Text.TrimmedEnds | src/components/Terminal.jsx:40 | a trimmed string neither begins nor ends with whitespace |
| Text.TrimPadded | src/components/Terminal.jsx:165 | trimming a word padded with whitespace on both sides gives back exactly the word |
| Text.LowerAppend | src/components/Terminal.jsx:165 | lower-casing distributes over concatenation |
| Text.LowerKeepsSpace | src/components/Terminal.jsx:165 | lower-casing leaves whitespace as it is |
| Text.Trim | src/components/Terminal.jsx:40 | `trim` is defined as `TrimEnd` after `TrimStart` and has no contract of its own. Its properties are carried by `Text.TrimmedEnds`, `Text.TrimPadded` and `Text.TrimCut` |
| Text.TrimCut | src/components/Terminal.jsx:165 | `trim` keeps one window of its input and cuts only whitespace before and after it |
| Text.LowerSlice | src/components/Terminal.jsx:165 | lower-casing a slice is slicing the lower-cased string |
| Text.LowerCharSpace | src/components/Terminal.jsx:165 | lower-casing never turns a non-whitespace character into whitespace |
| Text.TrimLowerWindow | src/components/Terminal.jsx:165 | `toLowerCase().trim()` gives the lower case of a window of the input, and everything outside that window is whitespace |
| Classifier.SeparatorAt | src/components/Terminal.jsx:41 | a match of the regular expression `\s-\s` at an index: whitespace, `-`, whitespace. It is a definition with no contract of its own. `Classifier.FirstSeparator`, `Classifier.SplitEntry` and `Classifier.IntendedEntrySplit` are stated in terms of it |
| Classifier.FirstSeparator | src/components/Terminal.jsx:41 | finds the leftmost match of `\s-\s` at or after a position, and reports none only when there is no match |
| Classifier.SplitEntry | src/components/Terminal.jsx:41-49 | splitting on `(\s-\s)`: the name, separator and description put back together give the line; the separator is the leftmost match, or empty when nothing matches |
| Classifier.Classify | src/components/Terminal.jsx:12-63 | `renderLine` as written. It is a definition with no contract of its own. Its behaviour is stated by `Classifier.ClassifyPrecedence`, `Classifier.EchoRoundTrip` and `Classifier.EntryUnreachable` |
| Classifier.ClassifyIntended | src/components/Terminal.jsx:12-63 | `renderLine` with the help-entry test on the untrimmed line (see Findings). It is a definition with no contract of its own. Its behaviour is stated by `Classifier.IntendedDiffersOnlyOnEntries`, `Classifier.IntendedEntrySplit`, `Classifier.IndentedEntry` and `Classifier.IntendedSplitsBullets` |
| Classifier.ClassifyPrecedence | src/components/Terminal.jsx:12-63 | the first rule that matches wins. A line is an echo exactly when it starts with `> `, and the echo shows the line minus its first two characters. It is an error exactly when it is no echo but contains `Oops!`, even if it also looks like a heading. It is a heading exactly when it is neither, and ends in `...` or is `COMMANDS LIST:`. Otherwise it is plain. Every kind but the echo shows the line unchanged |
| Classifier.EchoRoundTrip | src/components/Terminal.jsx:14-23 | a prompt line `> ` + command is shown as exactly that command, by the as-written and by the intended classifier |
| Classifier.EntryUnreachable | src/components/Terminal.jsx:40 | as written, no line is ever shown as a help entry, because a trimmed string cannot start with a space |
| Classifier.IntendedDiffersOnlyOnEntries | src/components/Terminal.jsx:12-63 | the as-written and the intended classifier disagree exactly on indented lines containing ` - ` that match no earlier rule. Those lines are plain as written and split as intended |
| Classifier.IntendedEntrySplit | src/components/Terminal.jsx:40-51 | under the intended rule, an entry's separator is a three-character match of `\s-\s`, the three parts put back together give the line, and the split comes no later than the first literal ` - ` |
| Classifier.IndentedEntry | src/components/Terminal.jsx:40-51 | an indented name column without `-`, then ` - `, then a description, with no `!` and no final ellipsis: plain as written, split at that separator as intended |
| Classifier.IntendedSplitsBullets | src/components/Terminal.jsx:40-54 | the intended rule also splits an indented bullet `  - text` into the name ` `, the separator and the text, although lines 53-54 mean such details to fall through to plain text. As written, the bullet is plain |
| Classifier.SplitAfterColumn | src/components/Terminal.jsx:41 | when the name has no `-`, the leftmost separator is the one right after the name |
| Commands.Parse | src/components/Terminal.jsx:165-261 | the `case` labels: a hit names a command whose label is the text, and a miss means no label equals the text |
| Commands.ParseName | src/components/Terminal.jsx:165-261 | every command is found again from its own label |
| Commands.Normalize | src/components/Terminal.jsx:165 | the switch key has no upper-case letter and no whitespace at either end. `Commands.NormalizeWindow` states what it is made of |
| Commands.NormalizeWindow | src/components/Terminal.jsx:165 | the switch key is the lower case of a window of the typed text, and only whitespace lies outside that window. Together with the contract of `Commands.Normalize`, this fixes the key: no other string is a lower-cased window with whitespace around it and no whitespace at its ends |
| Commands.Dispatch | src/components/Terminal.jsx:163-266 | the screen is reset exactly when the key is `clear`. Every other answer prints at least one line. Its first line is shown as a heading when the key names a command, and as an error otherwise |
| Commands.Table | src/components/Terminal.jsx:167-253 | the literal output of each command other than `clear`. It is data with no contract of its own. `Commands.TableTitles`, `Commands.AboutEntry` and `Commands.DispatchByName` state its properties |
| Commands.NotFound | src/components/Terminal.jsx:261-266 | the `default` branch's two lines. It has no contract of its own. `Commands.NotFoundIsError` and `Commands.DispatchUnknown` state its properties |
| Commands.TableTitles | src/components/Terminal.jsx:167-253 | the first line of every printed table is shown as a heading |
| Commands.TitleLine | src/components/Terminal.jsx:31-37 | a line with no prompt, no `!` and the shape of a title is shown as a heading |
| Commands.CaptionLine | src/components/Terminal.jsx:31-37 | a caption followed by `...` is shown as a heading |
| Commands.NotFoundIsError | src/components/Terminal.jsx:261-266 | the complaint's first line quotes the raw text and contains `Oops!`, so it is shown as an error |
| Commands.NameUntrimmed | src/components/Terminal.jsx:165-255 | no label is empty or begins or ends with whitespace, so trimming cannot miss one |
| Commands.DispatchByName | src/components/Terminal.jsx:163-266 | text whose key names a command gets that command's answer: a reset for `clear`, its table otherwise |
| Commands.DispatchPadded | src/components/Terminal.jsx:165 | any capitalisation of a label, padded with any whitespace, selects that command |
| Commands.DispatchUnknown | src/components/Terminal.jsx:261-266 | text that names no command gets exactly two lines. The first quotes the raw text and is shown as an error; the second is the hint |
| Commands.AboutEntry | src/components/Terminal.jsx:170 | the `about` line printed by `help` is plain text as written, and splits into its padded name, ` - ` and its summary as intended |
| Commands.ShoutedAbout | src/components/Terminal.jsx:165-189 | `  ABOUT  ` prints the `about` table |
| Animator.CharDelay | src/components/Terminal.jsx:87 | the rule for the per-character pause: 2 ms for lines longer than 50 characters, 5 ms for all others. It is a definition with no contract of its own. `Animator.Run` states the time per line as its length times this pause plus 50 ms, and `TerminalComponent.Welcome` shows the 51-character welcome line typed at 2 ms and the 46-character one at 5 ms |
| Animator.Fresh | src/components/Terminal.jsx:80-81 | the session at the moment `typeLines` is called: `setIsTyping(true)` has locked the input without a liveness test, the display is live, nothing is typed and no time has passed. It is a definition with no contract of its own. `Animator.Begin` and `Animator.BeginInv` state what its first step does |
| Animator.SetLast | src/components/Terminal.jsx:93-97 | overwriting the last entry keeps the length and every other entry. On an empty transcript nothing changes |
| Animator.Step | src/components/Terminal.jsx:82-104 | one synchronous stretch between pauses. Opening a line tests liveness, appends `""` and writes the first character in the same step. The transcript changes only if the display is live and the session has not returned. The lock is released only by the step past the last line, and only while live. A returned session no longer moves. The clock advances by nothing, 50 ms, or the line's per-character pause |
| Animator.Begin | src/components/Terminal.jsx:80-98 | the call `typeLines(lines)` up to its first pause. The display is live and the input is locked. The transcript already holds the first character of the first line, or `""` if that line is empty. With no lines, the session has already unlocked and returned |
| Animator.TearDown | src/components/Terminal.jsx:118-120 | the cleanup clears the liveness flag and nothing else. It has no contract of its own. `Animator.Exec`, `Animator.Cancelled` and `Animator.CancelledAtFirstPause` state what follows from it |
| Animator.Exec | src/components/Terminal.jsx:80-105 | once the display is gone it never comes back, and from then on the transcript and the lock stay exactly as they were |
| Animator.BeginInv | src/components/Terminal.jsx:80-98 | at its first pause, a session satisfies the session invariant over its starting transcript. Its pause time so far plus its time left is the whole duration of its lines |
| Animator.StepInv | src/components/Terminal.jsx:82-101 | each step keeps the session invariant. The transcript is the old one plus the lines typed so far, plus a prefix of the current line. The input is unlocked only once every line is typed and the session has returned. The step leaves the transcript alone, appends one entry of at most one character, or extends only the last entry by one character |
| Animator.OpenLineInv | src/components/Terminal.jsx:82-92 | the live step that leaves a line pause keeps the invariant. It finishes, opens an empty line, or opens a line with its first character |
| Animator.TypeCharInv | src/components/Terminal.jsx:90-100 | the step that leaves a character pause keeps the invariant. It types the next character, returns, or closes a line typed in full |
| Animator.ExecInv | src/components/Terminal.jsx:80-105 | every schedule of steps and unmounts keeps that invariant |
| Animator.StepProgress | src/components/Terminal.jsx:82-101 | a live step brings the session one step closer to returning, and the time it spends is exactly the time no longer left |
| Animator.LiveRun | src/components/Terminal.jsx:80-105 | with the display live and enough steps, the session returns with the transcript equal to the old one plus every line, the lock released, and exactly the remaining pause time spent |
| Animator.Run | src/components/Terminal.jsx:80-105 | an uninterrupted `typeLines(lines)` turns a transcript `h` into `h + lines` and unlocks the input. It spends, per line, its length times its per-character pause, plus 50 ms |
| Animator.Cancelled | src/components/Terminal.jsx:80-105 | a session unmounted before returning keeps the lock forever and never changes the transcript again |
| Animator.CancelledAtFirstPause | src/components/Terminal.jsx:108-120 | a session unmounted at its first pause, as the first welcome session is under Strict Mode, has already written its first character. Its own transcript keeps exactly that, and it holds the lock, whatever follows |
| Animator.Reveal | src/components/Terminal.jsx:80-105 | at every point of every schedule, the old transcript is intact and every later entry but the last is a whole line. The last is a prefix of the line being typed. Once the input is unlocked, the transcript is the old one followed by all the lines |
| TerminalComponent.Mount | src/components/Terminal.jsx:108-115 | the component starts with an empty input. A session types the welcome text (lines 4-8) over an empty transcript, and it is at its first pause. So the screen shows the first character of the welcome text, and the input is locked |
| TerminalComponent.Plan | src/components/Terminal.jsx:157-273 | `clear` types the welcome text over an empty transcript. Anything else types its response and a blank line after the old transcript plus the echoed `> ` line |
| TerminalComponent.Handle | src/components/Terminal.jsx:157-318 | while locked, edits and keys change nothing, and keys other than Enter never do. On an unlocked input, an edit sets the input text. Enter starts the planned session over a finished transcript and empties the input. A session step only grows the transcript |
| TerminalComponent.Replay | src/components/Terminal.jsx:157-318 | any sequence of events keeps the component consistent |
| TerminalComponent.SteadyRuns | src/components/Terminal.jsx:80-105 | left alone, the component runs its session exactly as the animator does on its own, and keeps the input text |
| TerminalComponent.Settle | src/components/Terminal.jsx:80-105 | run to completion, a session leaves its lines after its starting transcript with the input unlocked, having spent exactly its remaining pause time |
| TerminalComponent.Submit | src/components/Terminal.jsx:157-273 | Enter on an unlocked input and letting the session finish leaves the planned transcript, an empty input and no lock |
| TerminalComponent.SubmitPrinted | src/components/Terminal.jsx:159-271 | a command planned to print `out` ends up as old transcript, `> ` + command, `out`, `""`; the echo line sits right after the old transcript and `out` starts right after it |
| TerminalComponent.SubmitKnown | src/components/Terminal.jsx:159-271 | a recognised command other than `clear`, in any capitalisation and padding, ends up as old transcript, `> ` + command, its table and `""`, with the input unlocked. `Classifier.EchoRoundTrip` and `Commands.TableTitles` show that the first two new lines display as the command and as a heading |
| TerminalComponent.SubmitUnknown | src/components/Terminal.jsx:159-271 | unknown text ends up as old transcript, echo, the `Oops!` line quoting the raw text, the hint and `""`. The `Oops!` line is shown as an error under both classifiers |
| TerminalComponent.SubmitClear | src/components/Terminal.jsx:255-259 | `clear`, however capitalised or padded, leaves exactly the three welcome lines of lines 4-8, an empty input and no lock |
| TerminalComponent.Welcome | src/components/Terminal.jsx:108-115 | on mount the three welcome lines (lines 4-8) are typed in full and the input unlocks. The first line is 51 characters long and so is typed at 2 ms per character |

## Left out

- Rendering is out of scope: the JSX markup, the colours and styling, and the title bar. The model stops at the kind of each line (`LineKind`), and a line's kind is computed by the classifier.
- React itself is out of scope: hooks, the batching of state updates and re-rendering. A state update is applied at once; updater functions and direct updates both become plain assignments.
- Real timers (`setTimeout`) become an integer clock. The model does not say when the browser fires a timer, only how much pause each step adds.
- Strict Mode's mount–unmount–mount runs two welcome sessions that share one transcript. The model has one session per component. The first session has already queued `""` and `"W"` when the cleanup at line 119 runs (`Animator.CancelledAtFirstPause`). The second mount's `setHistory([])` at line 113 is queued after them and discards them. After that, the first session never writes again (`Animator.Cancelled`).
- Overlapping sessions are not modelled. They do not arise from the input: Enter is accepted only once the previous session has finished (`TerminalComponent.Handle`), so `clear` and every command start over a settled transcript.
- The scroll-into-view effect and the global key listener are left out. Both only move DOM focus or scroll position; neither touches the transcript, the input text or the lock.
- `toLowerCase` is modelled on ASCII letters only. Other scripts' case mappings, and mappings that change length, are not.
- JavaScript strings are UTF-16. Here strings are sequences of Unicode scalar values. Lengths therefore differ for characters outside the Basic Multilingual Plane, which affects the 50-character threshold of the per-character delay.
- Commands.TableTitles: does not prove the shape of every later line of every table. For `help`, only the `about` line is checked (`Commands.AboutEntry`). A proof over all seven entries is too costly for the verifier on literals this long.
- Animator.Exec: a schedule is finite. A session that is never given enough steps simply has not finished yet; liveness is stated by `Animator.LiveRun`.

## Findings

| source | as written | input that shows it | evidently intended | confidence | as-written member | corrected member |
|---|---|---|---|---|---|---|
| src/components/Terminal.jsx:40 | the help-entry rule tests `line.trim().startsWith(' ')`, which no trimmed string satisfies, so the branch is dead and every `help` entry is shown as plain text | ``  about      - Run `whoami` to get my details.`` (printed by `help`) is plain, not split into name and description | test the untrimmed line, `line.startsWith(' ')`, so that indented lines containing ` - ` are split at `\s-\s`. That guard also splits the `  - ` bullet lines of all five tables that have them, `skills`, `experience`, `projects`, `education` and `contact` (for example line 195, or `  - Graduation Year: 2025` on line 241) into a one-space name and the bullet text (`Classifier.IntendedSplitsBullets`), although lines 53-54 mean those to stay plain. So the exact intended guard is uncertain | medium; not executed | Classifier.EntryUnreachable | Classifier.IndentedEntry |

The corrected classifier is `Classifier.ClassifyIntended`.
`Classifier.IntendedDiffersOnlyOnEntries` shows that it agrees with the
as-written one everywhere except on those indented lines. So every fact
about echoes, errors and headings holds under both classifiers, and
`Classifier.EchoRoundTrip` and `TerminalComponent.SubmitUnknown` state theirs
for both.

The comment above the help-entry rule (line 39) says that rule colours the
`help` command list, a heading followed by seven label and description
entries, by command and description. The code disagrees: as written it shows all seven as
plain text (the finding above). The model follows the code.
