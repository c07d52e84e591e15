/**
  The typing animation (`typeLines`): a session that reveals a list of lines
  one character at a time into the transcript, pausing between characters
  and between lines, and that stops for good the first time it finds its
  display gone.

  Time is an explicit integer clock advanced by each pause. The session is a
  small-step machine: each step is one stretch of synchronous code, from the
  end of one pause to the start of the next, and the program counter names
  the pause the session is waiting in. The environment drives it with a
  schedule of signals, each either one step of the session or the display
  going away; the display can only go away while the session is paused.
 */
module Animator {

  /** Milliseconds waited after each character of a long line. */
  const FastDelay: nat := 2
  /** Milliseconds waited after each character of any other line. */
  const SlowDelay: nat := 5
  /** A line longer than this many characters is typed fast. */
  const LongLine: nat := 50
  /** Milliseconds waited after each complete line. */
  const LineDelay: nat := 50

  /** The pause after each character of `line`. */
  function CharDelay(line: string): nat {
    if |line| > LongLine then FastDelay else SlowDelay
  }

  /** Where the session is waiting: in the pause after line `line - 1`
      (or not yet started, for line 0), about to test liveness and open line
      `line`, or finish when there is none; in the pause after character
      `typed - 1` of line `line`; or nowhere, having finished the last line
      and returned. */
  datatype Pc =
    | LineCheck(line: nat)
    | CharCheck(line: nat, typed: nat)
    | Done

  /** The state one session sees and changes: the transcript, the input
      lock, the liveness flag of its display, its position, whether it has
      returned, and the time spent so far in pauses. */
  datatype Anim = Anim(
    history: seq<string>,
    typing: bool,
    live: bool,
    pc: Pc,
    returned: bool,
    clock: nat)

  /** The positions the loops of the session can reach for these lines: a
      session pauses only after typing at least one character of a line. */
  predicate InRange(lines: seq<string>, pc: Pc) {
    match pc
    case LineCheck(i) => i <= |lines|
    case CharCheck(i, j) => i < |lines| && 1 <= j <= |lines[i]|
    case Done => true
  }

  /** The session as it is called on `history`, before any of its code has
      run: the input lock is taken at once, and the display is live. */
  function Fresh(history: seq<string>): Anim {
    Anim(history, true, true, LineCheck(0), false, 0)
  }

  /** Overwrites the last entry of the transcript. On an empty array,
      assigning index -1 touches no element, so nothing changes. */
  function SetLast(h: seq<string>, text: string): (r: seq<string>)
    ensures |r| == |h|
    ensures |h| > 0 ==> r[..|h| - 1] == h[..|h| - 1] && r[|h| - 1] == text
  {
    if |h| == 0 then h else h[..|h| - 1] + [text]
  }

  /** One step of the session: the code that runs from the end of one
      pause to the start of the next. Leaving a line pause, it tests
      liveness and then either returns, or unlocks the input and returns
      when no line is left, or appends an empty entry and, in the same
      stretch, writes the first character of the line before pausing.
      Leaving a character pause, it tests liveness before the next
      character, or goes straight into the line pause after the last one.
      Only a live step changes the transcript; only a live step past the
      last line releases the lock; a returned session no longer moves. */
  function Step(lines: seq<string>, a: Anim): (b: Anim)
    requires InRange(lines, a.pc)
    ensures InRange(lines, b.pc)
    ensures b.live == a.live
    ensures b.history != a.history ==> a.live && !a.returned
    ensures b.typing != a.typing ==> a.typing && !b.typing && a.live && a.pc == LineCheck(|lines|) && b.returned
    ensures a.returned ==> b == a
    ensures b.clock == a.clock || b.clock == a.clock + LineDelay
            || (!a.pc.Done? && a.pc.line < |lines| && b.clock == a.clock + CharDelay(lines[a.pc.line]))
  {
    if a.returned then a
    else match a.pc
      case LineCheck(i) =>
        if !a.live then a.(returned := true)
        else if i == |lines| then a.(typing := false, pc := Done, returned := true)
        else if |lines[i]| == 0 then
          a.(history := a.history + [""], pc := LineCheck(i + 1), clock := a.clock + LineDelay)
        else
          a.(history := SetLast(a.history + [""], lines[i][..1]),
             pc := CharCheck(i, 1),
             clock := a.clock + CharDelay(lines[i]))
      case CharCheck(i, j) =>
        if j == |lines[i]| then a.(pc := LineCheck(i + 1), clock := a.clock + LineDelay)
        else if !a.live then a.(returned := true)
        else a.(history := SetLast(a.history, lines[i][..j + 1]),
                pc := CharCheck(i, j + 1),
                clock := a.clock + CharDelay(lines[i]))
      case Done => a
  }

  /** The call `typeLines(lines, …)` on `history`, up to the moment it
      first pauses and its caller regains control: by then the lock is
      down and the first character of the first line is on screen, or,
      with no lines, the session has already unlocked the input and
      returned, or, with an empty first line, that empty entry is there. */
  function Begin(history: seq<string>, lines: seq<string>): (r: Anim)
    ensures InRange(lines, r.pc) && r.live
    ensures lines == [] ==> r.returned && !r.typing && r.history == history
    ensures lines != [] ==> !r.returned && r.typing
    ensures lines != [] && lines[0] != "" ==> r.history == history + [lines[0][..1]]
    ensures lines != [] && lines[0] == "" ==> r.history == history + [""]
  {
    Step(lines, Fresh(history))
  }

  /** The display is torn down: the session's liveness flag goes false. */
  function TearDown(a: Anim): Anim {
    a.(live := false)
  }

  /** What the environment does next: let the session take one step, or
      tear its display down. */
  datatype Signal = Tick | Unmount

  /** Runs a schedule. Liveness, once lost, never returns; and from the
      moment it is lost the transcript and the lock stay exactly as they
      were, however the schedule goes on. */
  function Exec(lines: seq<string>, a: Anim, sigs: seq<Signal>): (r: Anim)
    requires InRange(lines, a.pc)
    ensures InRange(lines, r.pc)
    ensures r.live ==> a.live
    ensures r.clock >= a.clock
    ensures !a.live ==> r.history == a.history && r.typing == a.typing
    decreases |sigs|
  {
    if sigs == [] then a
    else
      var b := if sigs[0] == Tick then Step(lines, a) else TearDown(a);
      Exec(lines, b, sigs[1..])
  }

  /** The transcript at each position of a session that started on `h`:
      the lines already typed and, inside a line, the part of it typed so
      far. */
  function Shown(h: seq<string>, lines: seq<string>, pc: Pc): seq<string>
    requires InRange(lines, pc)
  {
    match pc
    case LineCheck(i) => h + lines[..i]
    case CharCheck(i, j) => h + lines[..i] + [lines[i][..j]]
    case Done => h + lines
  }

  /** The invariant of a session started on `h`: the transcript is what
      its position says, the input stays locked until the session has finished
      every line, only a returned session is past the last line, and a
      returned session whose display is still live has released the lock. */
  predicate Inv(h: seq<string>, lines: seq<string>, a: Anim) {
    && InRange(lines, a.pc)
    && a.history == Shown(h, lines, a.pc)
    && (!a.typing ==> a.returned && a.pc == Done)
    && (a.pc == Done ==> a.returned)
    && (a.returned && a.live ==> !a.typing)
  }

  /** One step either leaves the transcript alone, appends one entry of at
      most one character, or changes only the last entry, by extending it
      with one character. */
  predicate Grows(before: seq<string>, after: seq<string>) {
    || after == before
    || (&& |after| == |before| + 1
        && after[..|before|] == before
        && |after[|before|]| <= 1)
    || (&& |before| > 0
        && |after| == |before|
        && after[..|before| - 1] == before[..|before| - 1]
        && before[|before| - 1] < after[|before| - 1]
        && |after[|before| - 1]| == |before[|before| - 1]| + 1)
  }

  /** A session on `h` keeps the invariant from its first step on, and
      the pause time it has spent by the first pause plus the time it has
      left is the whole duration of the lines. */
  lemma BeginInv(h: seq<string>, lines: seq<string>)
    ensures Inv(h, lines, Begin(h, lines))
    ensures Begin(h, lines).clock + TimeLeft(lines, Begin(h, lines)) == Duration(lines)
    ensures Remaining(lines, Begin(h, lines)) == Steps(lines)
  {
    assert h + lines[..0] == h;
    assert lines[0..] == lines;
    StepInv(h, lines, Fresh(h));
    StepProgress(lines, Fresh(h));
  }

  /** Every step keeps the invariant, and the transcript only grows the
      way `Grows` allows. */
  lemma StepInv(h: seq<string>, lines: seq<string>, a: Anim)
    requires Inv(h, lines, a)
    ensures Inv(h, lines, Step(lines, a))
    ensures Grows(a.history, Step(lines, a).history)
  {
    if !a.returned {
      match a.pc
      case LineCheck(i) => if a.live { OpenLineInv(h, lines, a); }
      case CharCheck(i, j) => TypeCharInv(h, lines, a);
      case Done =>
    }
  }

  /** The step leaving a line pause while live: it finishes, opens an
      empty line, or opens a line with its first character. */
  lemma OpenLineInv(h: seq<string>, lines: seq<string>, a: Anim)
    requires Inv(h, lines, a) && a.live && !a.returned && a.pc.LineCheck?
    ensures Inv(h, lines, Step(lines, a))
    ensures Grows(a.history, Step(lines, a).history)
  {
    var i := a.pc.line;
    var b := Step(lines, a);
    if i == |lines| {
      assert lines[..i] == lines;
    } else {
      assert lines[..i + 1] == lines[..i] + [lines[i]];
      if |lines[i]| == 0 {
        assert lines[i] == "";
      } else {
        assert b.history == a.history + [lines[i][..1]];
      }
    }
  }

  /** The step leaving a character pause: it types the next character,
      returns, or closes a line that is typed in full. */
  lemma TypeCharInv(h: seq<string>, lines: seq<string>, a: Anim)
    requires Inv(h, lines, a) && !a.returned && a.pc.CharCheck?
    ensures Inv(h, lines, Step(lines, a))
    ensures Grows(a.history, Step(lines, a).history)
  {
    var i, j := a.pc.line, a.pc.typed;
    var b := Step(lines, a);
    var done := h + lines[..i];
    if j == |lines[i]| {
      assert lines[i][..j] == lines[i];
      assert lines[..i + 1] == lines[..i] + [lines[i]];
      assert done + [lines[i]] == h + lines[..i + 1];
    } else if a.live {
      assert a.history == done + [lines[i][..j]];
      assert b.history == done + [lines[i][..j + 1]];
      assert a.history[..|a.history| - 1] == done;
      assert lines[i][..j] < lines[i][..j + 1];
    }
  }

  /** Any schedule of steps and tear-downs keeps the invariant. */
  lemma {:induction false} ExecInv(h: seq<string>, lines: seq<string>, a: Anim, sigs: seq<Signal>)
    requires Inv(h, lines, a)
    ensures Inv(h, lines, Exec(lines, a, sigs))
    decreases |sigs|
  {
    if sigs != [] {
      if sigs[0] == Tick {
        StepInv(h, lines, a);
        ExecInv(h, lines, Step(lines, a), sigs[1..]);
      } else {
        ExecInv(h, lines, TearDown(a), sigs[1..]);
      }
    }
  }

  /** Steps the session takes, when left alone, for one line: one that
      opens it (and types its first character), one after each further
      character, and one leaving the last character's pause; an empty line
      takes only the step that opens it. */
  function LineSteps(line: string): nat {
    if |line| == 0 then 1 else |line| + 1
  }

  /** Steps the session takes, when left alone, for these lines, not
      counting the final step that unlocks the input. */
  function Steps(lines: seq<string>): nat {
    if lines == [] then 0 else LineSteps(lines[0]) + Steps(lines[1..])
  }

  /** Milliseconds an uninterrupted session spends pausing over these
      lines. */
  function Duration(lines: seq<string>): nat {
    if lines == [] then 0
    else |lines[0]| * CharDelay(lines[0]) + LineDelay + Duration(lines[1..])
  }

  /** Steps left before an uninterrupted session returns. */
  function Remaining(lines: seq<string>, a: Anim): nat
    requires InRange(lines, a.pc)
  {
    if a.returned then 0
    else match a.pc
      case LineCheck(i) => Steps(lines[i..]) + 1
      case CharCheck(i, j) => |lines[i]| - j + 1 + Steps(lines[i + 1..]) + 1
      case Done => 0
  }

  /** Milliseconds of pauses left in an uninterrupted session. */
  function TimeLeft(lines: seq<string>, a: Anim): nat
    requires InRange(lines, a.pc)
  {
    if a.returned then 0
    else match a.pc
      case LineCheck(i) => Duration(lines[i..])
      case CharCheck(i, j) => (|lines[i]| - j) * CharDelay(lines[i]) + LineDelay + Duration(lines[i + 1..])
      case Done => 0
  }

  /** A live step of a session that has not returned brings it one step
      closer to returning, and the time it pauses is time no longer left. */
  lemma StepProgress(lines: seq<string>, a: Anim)
    requires InRange(lines, a.pc) && a.live && !a.returned && !a.pc.Done?
    ensures Remaining(lines, Step(lines, a)) + 1 == Remaining(lines, a)
    ensures Step(lines, a).clock + TimeLeft(lines, Step(lines, a)) == a.clock + TimeLeft(lines, a)
  {
    match a.pc
    case LineCheck(i) =>
      if i < |lines| {
        assert lines[i..][0] == lines[i] && lines[i..][1..] == lines[i + 1..];
        assert Steps(lines[i..]) == LineSteps(lines[i]) + Steps(lines[i + 1..]);
        assert Duration(lines[i..]) == |lines[i]| * CharDelay(lines[i]) + LineDelay + Duration(lines[i + 1..]);
        if |lines[i]| > 0 {
          var d := CharDelay(lines[i]);
          assert |lines[i]| * d == d + (|lines[i]| - 1) * d;
        }
      } else {
        assert lines[i..] == [];
      }
    case CharCheck(i, j) =>
      if j < |lines[i]| {
        var d := CharDelay(lines[i]);
        assert (|lines[i]| - j) * d == d + (|lines[i]| - (j + 1)) * d;
      }
  }

  /** A session whose display stays live, given enough steps, ends with
      every line typed in full after the old transcript, the input unlocked,
      and exactly the remaining pause time spent. */
  lemma {:induction false} LiveRun(h: seq<string>, lines: seq<string>, a: Anim, n: nat)
    requires Inv(h, lines, a) && a.live
    requires n >= Remaining(lines, a)
    ensures var r := Exec(lines, a, Ticks(n));
            && r.returned
            && r.history == h + lines
            && !r.typing
            && r.clock == a.clock + TimeLeft(lines, a)
    decreases n
  {
    var sigs := Ticks(n);
    if n == 0 {
      assert a.returned;
    } else {
      assert sigs[1..] == Ticks(n - 1);
      StepInv(h, lines, a);
      if !a.returned {
        StepProgress(lines, a);
      }
      LiveRun(h, lines, Step(lines, a), n - 1);
    }
  }

  /** `n` steps with the display left alone. */
  function Ticks(n: nat): seq<Signal> {
    seq(n, _ => Tick)
  }

  /** The session `typeLines(lines, isMounted)` with a display that stays
      live throughout: the transcript becomes `h` followed by the lines, the
      input is unlocked, and the time spent pausing is, for each line, its
      length times its per-character delay, plus the pause after it. */
  function Run(h: seq<string>, lines: seq<string>): (r: Anim)
    ensures r.history == h + lines
    ensures !r.typing && r.returned
    ensures r.clock == Duration(lines)
  {
    BeginInv(h, lines);
    LiveRun(h, lines, Begin(h, lines), Steps(lines));
    Exec(lines, Begin(h, lines), Ticks(Steps(lines)))
  }

  /** Torn down before it has returned, a session never releases the lock
      and never touches the transcript again, whatever follows. */
  lemma Cancelled(h: seq<string>, lines: seq<string>, a: Anim, sigs: seq<Signal>)
    requires Inv(h, lines, a) && !a.returned
    ensures var r := Exec(lines, TearDown(a), sigs);
            r.typing && r.history == a.history
  {
  }

  /** A session whose display is torn down at its first pause has already
      put the first character of its first line on screen, keeps it there,
      and never releases the lock, whatever follows. */
  lemma CancelledAtFirstPause(h: seq<string>, lines: seq<string>, sigs: seq<Signal>)
    requires |lines| > 0 && |lines[0]| > 0
    ensures var r := Exec(lines, TearDown(Begin(h, lines)), sigs);
            r.typing && r.history == h + [lines[0][..1]]
  {
    BeginInv(h, lines);
    Cancelled(h, lines, Begin(h, lines), sigs);
  }

  /** At every point of every schedule, the old transcript is intact, every
      entry after it but the last is a whole line, and the last is a prefix
      of the line being typed; and once the input is unlocked the transcript is
      exactly the old one followed by all the lines. */
  lemma Reveal(h: seq<string>, lines: seq<string>, sigs: seq<Signal>)
    ensures var r := Exec(lines, Begin(h, lines), sigs);
            && h <= r.history
            && |r.history| <= |h| + |lines|
            && (forall k :: |h| <= k < |r.history| - 1 ==> r.history[k] == lines[k - |h|])
            && (|r.history| > |h| ==> r.history[|r.history| - 1] <= lines[|r.history| - 1 - |h|])
            && (!r.typing ==> r.history == h + lines)
  {
    BeginInv(h, lines);
    ExecInv(h, lines, Begin(h, lines), sigs);
  }
}
