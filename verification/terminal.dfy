/**
  The terminal component: the input box, the transcript and its input lock,
  and the one typing session that last started. Events are the input's
  change and key-down handlers and one step of the running session; the
  input ignores both handlers while it is locked.
 */
module TerminalComponent {
  import opened Classifier
  import opened Commands
  import opened Animator

  /** The welcome text, typed when the component mounts and after
      `clear`. */
  const InitialLines: seq<string> := [
    "Welcome to Mudassir Nadeem's interactive portfolio.",
    "For a list of available commands, type 'help'.",
    ""
  ]

  /** The input text, the transcript the running session started on, the
      lines it types, and its state (which holds the transcript and the
      lock). */
  datatype Terminal = Terminal(command: string, base: seq<string>, lines: seq<string>, anim: Anim)

  /** The session is consistent with the transcript it started on, and its
      display is live: nothing in the component ever tears it down. */
  predicate Valid(t: Terminal) {
    Inv(t.base, t.lines, t.anim) && t.anim.live
  }

  /** First render and the mount effect: the input is empty, and a session
      typing the welcome text begins on an empty transcript; by the time
      the effect returns, the first character of the welcome text is on
      screen and the input is locked. */
  function Mount(): (t: Terminal)
    ensures Valid(t)
    ensures t.command == "" && t.base == [] && t.lines == InitialLines
    ensures t.anim == Begin([], InitialLines)
    ensures t.anim.history == [InitialLines[0][..1]] && t.anim.typing
  {
    BeginInv([], InitialLines);
    Terminal("", [], InitialLines, Begin([], InitialLines))
  }

  /** What a session started by the key-down handler types, and on what. */
  datatype Launch = Launch(base: seq<string>, lines: seq<string>)

  /** The submitted command decides the next session: `clear` wipes the
      transcript and types the welcome text again; anything else echoes the
      command behind the prompt and types its response and a blank line. */
  function Plan(history: seq<string>, command: string): (p: Launch)
    ensures Normalize(command) == Name(Clear) ==> p == Launch([], InitialLines)
    ensures Normalize(command) != Name(Clear) ==>
              && p.base == history + [Prompt + command]
              && p.lines == Dispatch(command).lines + [""]
  {
    match Dispatch(command)
    case Reset => Launch([], InitialLines)
    case Print(out) =>
      Launch(history + [Prompt + command], out + [""])
  }

  /** The input changes, a key goes down in it, or the session takes one
      step: its pending pause elapses. */
  datatype Event = Edit(text: string) | KeyDown(key: string) | Elapse

  /** The component's reaction to one event. While the input is locked,
      edits and keys change nothing; Enter on an unlocked input starts the
      session its command plans, over a transcript the previous session
      has finished, and empties the input; any other key changes nothing. */
  function Handle(t: Terminal, e: Event): (r: Terminal)
    requires Valid(t)
    ensures Valid(r)
    ensures !e.Elapse? && t.anim.typing ==> r == t
    ensures e.KeyDown? && e.key != "Enter" ==> r == t
    ensures e.Edit? && !t.anim.typing ==> r == t.(command := e.text)
    ensures e == KeyDown("Enter") && !t.anim.typing ==>
              && t.anim.history == t.base + t.lines
              && r.command == ""
              && Launch(r.base, r.lines) == Plan(t.anim.history, t.command)
              && r.anim == Begin(r.base, r.lines)
    ensures e.Elapse? ==> r.command == t.command && Grows(t.anim.history, r.anim.history)
  {
    match e
    case Edit(text) =>
      if t.anim.typing then t else t.(command := text)
    case KeyDown(key) =>
      if key != "Enter" || t.anim.typing then t
      else
        var p := Plan(t.anim.history, t.command);
        BeginInv(p.base, p.lines);
        Terminal("", p.base, p.lines, Begin(p.base, p.lines))
    case Elapse =>
      StepInv(t.base, t.lines, t.anim);
      t.(anim := Step(t.lines, t.anim))
  }

  /** The component after a sequence of events. */
  function Replay(t: Terminal, events: seq<Event>): (r: Terminal)
    requires Valid(t)
    ensures Valid(r)
    decreases |events|
  {
    if events == [] then t else Replay(Handle(t, events[0]), events[1..])
  }

  /** `n` steps of the running session. */
  function Steady(n: nat): seq<Event> {
    seq(n, _ => Elapse)
  }

  /** Left alone, the component only runs its session: the input text
      stays, and the session goes exactly as the animation alone would. */
  lemma {:induction false} SteadyRuns(t: Terminal, n: nat)
    requires Valid(t)
    ensures Replay(t, Steady(n)) == t.(anim := Exec(t.lines, t.anim, Ticks(n)))
    decreases n
  {
    if n > 0 {
      assert Steady(n)[1..] == Steady(n - 1);
      assert Ticks(n)[1..] == Ticks(n - 1);
      SteadyRuns(Handle(t, Elapse), n - 1);
    }
  }

  /** The component after its running session is left alone to the end:
      the session's lines follow the transcript it started on, the input
      is unlocked and its text untouched. */
  function Settle(t: Terminal): (r: Terminal)
    requires Valid(t)
    ensures Valid(r)
    ensures r.anim.history == t.base + t.lines && !r.anim.typing
    ensures r.command == t.command && r.base == t.base && r.lines == t.lines
    ensures r.anim.clock == t.anim.clock + TimeLeft(t.lines, t.anim)
  {
    var n := Remaining(t.lines, t.anim);
    SteadyRuns(t, n);
    LiveRun(t.base, t.lines, t.anim, n);
    Replay(t, Steady(n))
  }

  /** Pressing Enter on an unlocked input and letting the session finish:
      the planned lines follow the planned transcript, and the input is
      empty and unlocked again. */
  lemma Submit(t: Terminal)
    requires Valid(t) && !t.anim.typing
    ensures var p := Plan(t.anim.history, t.command);
            var r := Settle(Handle(t, KeyDown("Enter")));
            && r.anim.history == p.base + p.lines
            && !r.anim.typing
            && r.command == ""
  {
  }

  /** A command planned to print `out`: once typed, the transcript is the
      old one, the prompt line, `out` and a blank line. */
  lemma SubmitPrinted(t: Terminal, out: seq<string>)
    requires Valid(t) && !t.anim.typing
    requires Plan(t.anim.history, t.command) == Launch(t.anim.history + [Prompt + t.command], out + [""])
    ensures var r := Settle(Handle(t, KeyDown("Enter")));
            && r.anim.history == t.anim.history + [Prompt + t.command] + out + [""]
            && !r.anim.typing
            && r.anim.history[|t.anim.history|] == Prompt + t.command
            && (|out| > 0 ==> r.anim.history[|t.anim.history| + 1] == out[0])
  {
    var h := t.anim.history;
    var r := Settle(Handle(t, KeyDown("Enter")));
    assert r.anim.history == (h + [Prompt + t.command]) + (out + [""]);
  }

  /** A recognised command other than `clear`: once typed, the transcript
      is the old one, the prompt line, the command's table and a blank
      line. */
  lemma SubmitKnown(t: Terminal, c: Command)
    requires Valid(t) && !t.anim.typing
    requires Normalize(t.command) == Name(c) && c != Clear
    ensures var r := Settle(Handle(t, KeyDown("Enter")));
            && r.anim.history == t.anim.history + [Prompt + t.command] + Table(c) + [""]
            && !r.anim.typing
  {
    DispatchByName(t.command, c);
    SubmitPrinted(t, Table(c));
  }

  /** An unrecognised command: once typed, the transcript is the old one,
      the prompt line, the error line quoting the command as entered, the
      hint and a blank line; the prompt line is shown as an echo and the
      error line as an error, under either classifier. */
  lemma SubmitUnknown(t: Terminal)
    requires Valid(t) && !t.anim.typing
    requires Parse(Normalize(t.command)).None?
    ensures var r := Settle(Handle(t, KeyDown("Enter")));
            && r.anim.history == t.anim.history + [Prompt + t.command] + NotFound(t.command) + [""]
            && !r.anim.typing
            && Classify(r.anim.history[|t.anim.history|]) == Echo(t.command)
            && ClassifyIntended(r.anim.history[|t.anim.history|]) == Echo(t.command)
            && Classify(r.anim.history[|t.anim.history| + 1]).Error?
            && ClassifyIntended(r.anim.history[|t.anim.history| + 1]).Error?
  {
    DispatchUnknown(t.command);
    IntendedDiffersOnlyOnEntries(NotFound(t.command)[0]);
    SubmitPrinted(t, NotFound(t.command));
    EchoRoundTrip(t.command);
  }

  /** `clear`, however it is capitalised or padded: once typed, the
      transcript is the welcome text and nothing else. */
  lemma SubmitClear(t: Terminal)
    requires Valid(t) && !t.anim.typing
    requires Normalize(t.command) == Name(Clear)
    ensures var r := Settle(Handle(t, KeyDown("Enter")));
            r.anim.history == InitialLines && !r.anim.typing && r.command == ""
  {
  }

  /** On mount, left alone, the welcome text is typed in full and the
      input unlocks. */
  lemma Welcome()
    ensures var r := Settle(Mount());
            && r.anim.history == InitialLines && !r.anim.typing
            && r.anim.clock == 51 * FastDelay + 46 * SlowDelay + 3 * LineDelay
  {
    BeginInv([], InitialLines);
    var w := InitialLines;
    assert |w[0]| == 51 && |w[1]| == 46 && |w[2]| == 0;
    assert w[1..][1..] == [w[2]] && w[1..][1..][1..] == [];
  }
}
