/**
  The transcript line classifier (`renderLine` in src/components/Terminal.jsx
  without its markup): a first-match-wins decision over five display
  categories.
 */
module Classifier {
  import opened Text
  import opened Wrappers

  /** The marker the terminal puts in front of an echoed command. */
  const Prompt: string := "> "
  /** The substring that marks an error line. */
  const ErrorMark: string := "Oops!"
  /** A line ending with this is a title. */
  const Ellipsis: string := "..."
  /** The one title that does not end with an ellipsis. */
  const CommandsTitle: string := "COMMANDS LIST:"
  /** The literal a help entry must contain. */
  const EntryMark: string := " - "

  /** The display category of one transcript line, with the text each
      category shows. */
  datatype LineKind =
    | Echo(command: string)
    | Error(text: string)
    | Heading(text: string)
    | Entry(name: string, separator: string, description: string)
    | Plain(text: string)

  /** The regular expression `\s-\s` matches `s` at index `i`. */
  predicate SeparatorAt(s: string, i: int) {
    0 <= i && i + 3 <= |s| && IsSpace(s[i]) && s[i + 1] == '-' && IsSpace(s[i + 2])
  }

  /** The leftmost match of `\s-\s` at or after index `from`. */
  function FirstSeparator(s: string, from: nat): (r: Option<nat>)
    ensures r.Some? ==> from <= r.value && SeparatorAt(s, r.value)
    ensures r.Some? ==> forall k :: from <= k < r.value ==> !SeparatorAt(s, k)
    ensures r.None? ==> forall k :: from <= k ==> !SeparatorAt(s, k)
    decreases |s| - from
  {
    if from + 3 > |s| then None
    else if SeparatorAt(s, from) then Some(from)
    else FirstSeparator(s, from + 1)
  }

  /** `line.split(/(\s-\s)/)` shown as `parts[0]`, `parts[1]` and
      `parts.slice(2).join('')`: the label is everything before the leftmost
      separator, the description everything after it. When nothing matches,
      `split` yields the whole line alone and the other two parts are empty. */
  function SplitEntry(line: string): (r: LineKind)
    ensures r.Entry?
    ensures r.name + r.separator + r.description == line
    ensures r.separator == "" <==> forall k :: !SeparatorAt(line, k)
    ensures r.separator != "" ==>
              && |r.separator| == 3
              && SeparatorAt(line, |r.name|)
              && forall k :: 0 <= k < |r.name| ==> !SeparatorAt(line, k)
  {
    match FirstSeparator(line, 0)
    case None => Entry(line, "", "")
    case Some(i) => Entry(line[..i], line[i..i + 3], line[i + 3..])
  }

  /** `renderLine` as written: echo, then error, then title, then the help
      entry (guarded by `line.trim().startsWith(' ')`), then plain text. */
  function Classify(line: string): LineKind {
    if StartsWith(line, Prompt) then Echo(line[2..])
    else if Contains(line, ErrorMark) then Error(line)
    else if EndsWith(line, Ellipsis) || line == CommandsTitle then Heading(line)
    else if StartsWith(Trim(line), " ") && Contains(line, EntryMark) then SplitEntry(line)
    else Plain(line)
  }

  /** The help-entry rule as it was evidently meant: the line itself starts
      with a space (`line.startsWith(' ')`). Every other rule is unchanged. */
  function ClassifyIntended(line: string): LineKind {
    if StartsWith(line, Prompt) then Echo(line[2..])
    else if Contains(line, ErrorMark) then Error(line)
    else if EndsWith(line, Ellipsis) || line == CommandsTitle then Heading(line)
    else if StartsWith(line, " ") && Contains(line, EntryMark) then SplitEntry(line)
    else Plain(line)
  }

  /** The help-entry branch of `renderLine` can never be taken: a trimmed
      string does not begin with a space. */
  lemma EntryUnreachable(line: string)
    ensures !Classify(line).Entry?
  {
    var t := Trim(line);
    TrimmedEnds(line);
    assert !StartsWith(t, " ") by {
      if |t| >= 1 {
        assert t[..1][0] == t[0];
      }
    }
  }

  /** First match wins: an echo whatever else the line holds, then an error
      even for a line that would also be a title, then a title, and
      otherwise plain text. Every category but the echo shows the line
      unchanged; the echo shows it without its prompt. */
  lemma ClassifyPrecedence(line: string)
    ensures Classify(line).Echo? <==> StartsWith(line, Prompt)
    ensures Classify(line).Echo? ==> Prompt + Classify(line).command == line
    ensures Classify(line).Error? <==> !StartsWith(line, Prompt) && Contains(line, ErrorMark)
    ensures Classify(line).Heading? <==>
              && !StartsWith(line, Prompt)
              && !Contains(line, ErrorMark)
              && (EndsWith(line, Ellipsis) || line == CommandsTitle)
    ensures Classify(line).Plain? <==>
              && !StartsWith(line, Prompt)
              && !Contains(line, ErrorMark)
              && !EndsWith(line, Ellipsis)
              && line != CommandsTitle
    ensures !Classify(line).Echo? ==> Classify(line) in {Error(line), Heading(line), Plain(line)}
  {
    EntryUnreachable(line);
  }

  /** An echoed command reads back as exactly the command that was typed. */
  lemma EchoRoundTrip(command: string)
    ensures Classify(Prompt + command) == Echo(command)
    ensures ClassifyIntended(Prompt + command) == Echo(command)
  {
    assert (Prompt + command)[2..] == command;
  }

  /** The as-written and the intended classifier differ only on lines the
      intended one splits into label and description, which the as-written
      one shows as plain text. */
  lemma IntendedDiffersOnlyOnEntries(line: string)
    ensures Classify(line) != ClassifyIntended(line) <==>
              && !StartsWith(line, Prompt)
              && !Contains(line, ErrorMark)
              && !EndsWith(line, Ellipsis)
              && line != CommandsTitle
              && StartsWith(line, " ")
              && Contains(line, EntryMark)
    ensures Classify(line) != ClassifyIntended(line) ==>
              Classify(line) == Plain(line) && ClassifyIntended(line).Entry?
  {
    EntryUnreachable(line);
  }

  /** Under the intended rule an indented entry is always split: the
      separator is a real match of `\s-\s`, found no later than the first
      literal " - " of the line. */
  lemma IntendedEntrySplit(line: string)
    requires ClassifyIntended(line).Entry?
    ensures var e := ClassifyIntended(line);
            && |e.separator| == 3
            && e.name + e.separator + e.description == line
            && forall k :: OccursAt(line, EntryMark, k) ==> |e.name| <= k
  {
    var e := SplitEntry(line);
    forall k | OccursAt(line, EntryMark, k)
      ensures SeparatorAt(line, k)
    {
      assert line[k..k + 3] == EntryMark;
      assert line[k] == line[k..k + 3][0] && line[k + 1] == line[k..k + 3][1] && line[k + 2] == line[k..k + 3][2];
    }
  }

  /** A line made of an indented name column free of `-`, the separator and
      a description, with no `!` anywhere and no ellipsis at the end, is
      plain text as written and is split at that separator as intended. */
  lemma IndentedEntry(name: string, desc: string)
    requires |name| > 0 && name[0] == ' '
    requires forall i :: 0 <= i < |name| ==> name[i] != '-' && name[i] != '!'
    requires forall i :: 0 <= i < |desc| ==> desc[i] != '!'
    requires |desc| >= 2 && desc[|desc| - 2] != '.'
    ensures Classify(name + EntryMark + desc) == Plain(name + EntryMark + desc)
    ensures ClassifyIntended(name + EntryMark + desc) == Entry(name, EntryMark, desc)
  {
    var line := name + EntryMark + desc;
    var n := |name|;
    forall i | 0 <= i < |line|
      ensures line[i] != '!'
    {
      if i >= n + 3 {
        assert line[i] == desc[i - n - 3];
      }
    }
    MissingCharNotContained(line, ErrorMark, 4);
    assert !StartsWith(line, Prompt) by {
      assert line[..2][0] == line[0] == ' ';
    }
    assert !EndsWith(line, Ellipsis) by {
      assert line[|line| - 3..][1] == line[|line| - 2] == desc[|desc| - 2];
    }
    ClassifyPrecedence(line);
    assert StartsWith(line, " ") by {
      assert line[..1] == " ";
    }
    assert line[n..n + 3] == EntryMark;
    assert OccursAt(line, EntryMark, n);
    SplitAfterColumn(name, desc);
  }

  /** The corrected rule also reaches the indented bullet lines of the
      `skills`, `experience`, `projects`, `education` and `contact` tables,
      which the renderer means
      to leave as plain text: such a line is split into a one-space name,
      the separator and the bullet's text. */
  lemma IntendedSplitsBullets(desc: string)
    requires forall i :: 0 <= i < |desc| ==> desc[i] != '!'
    requires |desc| >= 2 && desc[|desc| - 2] != '.'
    ensures Classify("  - " + desc) == Plain("  - " + desc)
    ensures ClassifyIntended("  - " + desc) == Entry(" ", EntryMark, desc)
  {
    assert " " + EntryMark == "  - ";
    IndentedEntry(" ", desc);
  }

  /** The leftmost separator of such a line is the one after the name. */
  lemma SplitAfterColumn(name: string, desc: string)
    requires forall i :: 0 <= i < |name| ==> name[i] != '-'
    ensures SplitEntry(name + EntryMark + desc) == Entry(name, EntryMark, desc)
  {
    var line := name + EntryMark + desc;
    var n := |name|;
    assert SeparatorAt(line, n);
    forall k | 0 <= k < n
      ensures !SeparatorAt(line, k)
    {
      if k + 1 < n {
        assert line[k + 1] == name[k + 1];
      } else {
        assert line[k + 1] == ' ';
      }
    }
    assert line[..n] == name && line[n..n + 3] == EntryMark && line[n + 3..] == desc;
  }
}
