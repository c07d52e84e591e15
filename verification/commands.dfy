/**
  The command dispatcher (the `switch` in `handleCommand`): the typed text is
  lower-cased and trimmed, looked up in a fixed table, and answered with a
  fixed block of lines, a screen reset, or a two-line complaint that quotes
  the text exactly as it was typed.
 */
module Commands {
  import opened Text
  import opened Wrappers
  import opened Classifier

  /** The recognised commands. */
  datatype Command = Help | About | Skills | Experience | Projects | Education | Contact | Clear

  /** The normalised text that selects each command. */
  function Name(c: Command): string {
    match c
    case Help => "help"
    case About => "about"
    case Skills => "skills"
    case Experience => "experience"
    case Projects => "projects"
    case Education => "education"
    case Contact => "contact"
    case Clear => "clear"
  }

  /** The `case` labels of the switch: finds the command a normalised text
      names, if any. */
  function Parse(name: string): (r: Option<Command>)
    ensures r.Some? ==> Name(r.value) == name
    ensures r.None? ==> forall c :: Name(c) != name
  {
    if name == "help" then Some(Help)
    else if name == "about" then Some(About)
    else if name == "skills" then Some(Skills)
    else if name == "experience" then Some(Experience)
    else if name == "projects" then Some(Projects)
    else if name == "education" then Some(Education)
    else if name == "contact" then Some(Contact)
    else if name == "clear" then Some(Clear)
    else None
  }

  /** Every command is found again from its own name. */
  lemma ParseName(c: Command)
    ensures Parse(Name(c)) == Some(c)
  {
  }

  /** `command.toLowerCase().trim()`: the result holds no upper-case ASCII
      letter and neither begins nor ends with whitespace. */
  function Normalize(input: string): (r: string)
    ensures forall i :: 0 <= i < |r| ==> !IsUpper(r[i])
    ensures |r| > 0 ==> !IsSpace(r[0]) && !IsSpace(r[|r| - 1])
  {
    TrimmedEnds(Lower(input));
    Trim(Lower(input))
  }

  /** The key is the lower case of a window of the typed text, and only
      whitespace lies outside that window. */
  lemma NormalizeWindow(input: string)
    ensures exists a, b | 0 <= a <= b <= |input| ::
              AllSpace(input[..a]) && AllSpace(input[b..]) && Normalize(input) == Lower(input[a..b])
  {
    TrimLowerWindow(input);
  }

  /** The line `help` prints for each other command: its name in a padded
      column, the separator and a one-line summary. */
  function Synopsis(c: Command): string
    requires c != Help
  {
    Column(c) + EntryMark + Summary(c)
  }

  /** The command's name, indented by two and padded to ten columns. */
  function Column(c: Command): string
    requires c != Help
  {
    match c
    case About => "  about     "
    case Skills => "  skills    "
    case Experience => "  experience"
    case Projects => "  projects  "
    case Education => "  education "
    case Contact => "  contact   "
    case Clear => "  clear     "
  }

  /** What the command does, as the help text puts it. */
  function Summary(c: Command): string
    requires c != Help
  {
    match c
    case About => "Run `whoami` to get my details."
    case Skills => "Check out my tech arsenal."
    case Experience => "Access my service record."
    case Projects => "Inspect my completed builds."
    case Education => "View my training & qualifications."
    case Contact => "Open a communication channel."
    case Clear => "Wipe the slate clean."
  }

  /** The title line that opens the output of every command except
      `clear`: the commands list for `help`, a caption followed by an
      ellipsis for the others. */
  function Title(c: Command): string
    requires c != Clear
  {
    if c == Help then CommandsTitle else Caption(c) + Ellipsis
  }

  /** The caption of the title of every command but `help` and `clear`. */
  function Caption(c: Command): string
    requires c != Clear && c != Help
  {
    match c
    case About => "EXECUTING: `whoami`"
    case Skills => "ACCESSING TECH ARSENAL"
    case Experience => "LOADING SERVICE RECORD"
    case Projects => "INSPECTING COMPLETED BUILDS"
    case Education => "QUERYING QUALIFICATIONS"
    case Contact => "OPENING COMMUNICATION CHANNEL"
  }

  /** The lines that follow the title. */
  function Body(c: Command): seq<string>
    requires c != Clear
  {
    match c
    case Help => [Synopsis(About), Synopsis(Skills), Synopsis(Experience), Synopsis(Projects), Synopsis(Education), Synopsis(Contact), Synopsis(Clear)]
    case About => [
      "  Hey there! I'm Mudassir Nadeem.",
      "  A Software Engineering grad who loves building things.",
      "  I've spent 4 years tinkering with IoT and desktop apps, and now I'm diving",
      "  deep into frontend web development. My goal? To become a full-stack dev.",
      "  I build clean, documented, client-ready solutions."
    ]
    case Skills => [
      "  --- CORE WEAPONS (Web) ---",
      "  - HTML, CSS, JavaScript, React",
      "",
      "  --- BATTLE-TESTED (IoT/Desktop) ---",
      "  - Python (Tkinter/CustomTkinter)",
      "  - Arduino, ESP32, Sensors",
      "",
      "  --- UNIVERSAL PERKS ---",
      "  - Problem-solving & Debugging",
      "  - Project Handling & Time Management",
      "  - Strong Communication & Collaboration"
    ]
    case Experience => [
      "",
      "  ** IoT & DESKTOP DEV @ PaZhong Automations **",
      "  - Duration: Feb 2022 - Aug 2024",
      "  - Mission: Built smart systems (Arduino, ESP32) and Python desktop apps.",
      "  - Delivered cool stuff like solar scrubbers, smart dustbins, and parking systems.",
      "",
      "  ** FREELANCE DEVELOPER (Web/Desktop/IoT) **",
      "  - Duration: 2021 - Present",
      "  - Mission: Took on projects from LinkedIn, Facebook, and university.",
      "  - Built responsive React sites and various Python tools."
    ]
    case Projects => [
      "  Here's a log of systems I've brought to life:",
      "  - Deployed smart solar scrubbers.",
      "  - Engineered automated smart dustbins.",
      "  - Implemented intelligent parking systems.",
      "  - Built various responsive websites using React.",
      "  - Crafted custom desktop tools using Python (Tkinter)."
    ]
    case Education => [
      "  - BS Software Engineering",
      "  - The Islamia University of Bahawalpur (IUB)",
      "  - Graduation Year: 2025"
    ]
    case Contact => [
      "  - Phone: +92 319 1001847",
      "  - Email: heyimudassir@gmail.com",
      "  - Web: ohmudassir.netlify.app",
      "  - Base: Bahawalnagar"
    ]
  }

  /** The fixed output of every command except `clear`. */
  function Table(c: Command): seq<string>
    requires c != Clear
  {
    [Title(c)] + Body(c)
  }

  /** The hint that follows the complaint about an unknown command. */
  const Hint: string := "Are you sure that's correct? Type 'help' for a list of commands."

  /** The answer to text that names no command; it quotes the input raw. */
  function NotFound(input: string): seq<string> {
    ["Oops! Command '" + input + "' not recognized.", Hint]
  }

  /** What a submitted text asks the terminal to do: wipe the screen, or
      print lines. */
  datatype Response = Reset | Print(lines: seq<string>)

  /** The switch of `handleCommand`. It is total: every text gets an answer.
      Only `clear` resets; any other answer prints at least one line, and its
      first line shows as a title exactly when the command was recognised
      and as an error exactly when it was not. */
  function Dispatch(input: string): (r: Response)
    ensures r.Reset? <==> Normalize(input) == Name(Clear)
    ensures r.Print? ==> |r.lines| > 0
    ensures r.Print? ==>
              Classify(r.lines[0])
              == if Parse(Normalize(input)).Some? then Heading(r.lines[0]) else Error(r.lines[0])
  {
    var name := Normalize(input);
    if name == Name(Clear) then Reset
    else match Parse(name)
      case Some(c) =>
        TableTitles(c);
        assert Table(c)[0] == Title(c);
        Print(Table(c))
      case None =>
        NotFoundIsError(input);
        Print(NotFound(input))
  }

  /** The title of every table is shown as a title. */
  lemma TableTitles(c: Command)
    requires c != Clear
    ensures Classify(Title(c)) == Heading(Title(c))
  {
    match c
    case Help => TitleLine(CommandsTitle);
    case About => CaptionLine(Caption(c));
    case Skills => CaptionLine(Caption(c));
    case Experience => CaptionLine(Caption(c));
    case Projects => CaptionLine(Caption(c));
    case Education => CaptionLine(Caption(c));
    case Contact => CaptionLine(Caption(c));
  }

  /** A line that does not start with the prompt, has no `!` and is a
      title by its shape is shown as a title. */
  lemma TitleLine(t: string)
    requires |t| > 0 && t[0] != '>'
    requires forall i :: 0 <= i < |t| ==> t[i] != '!'
    requires EndsWith(t, Ellipsis) || t == CommandsTitle
    ensures Classify(t) == Heading(t)
  {
    assert !StartsWith(t, Prompt) by {
      if |t| >= 2 {
        assert t[..2][0] == t[0];
      }
    }
    MissingCharNotContained(t, ErrorMark, 4);
  }

  /** A caption with no `!` that does not start with the prompt's `>`
      makes, followed by an ellipsis, a title. */
  lemma CaptionLine(caption: string)
    requires |caption| > 0 && caption[0] != '>'
    requires forall i :: 0 <= i < |caption| ==> caption[i] != '!'
    ensures Classify(caption + Ellipsis) == Heading(caption + Ellipsis)
  {
    var t := caption + Ellipsis;
    assert forall i :: |caption| <= i < |t| ==> t[i] == '.';
    assert t[|t| - 3..] == Ellipsis;
    TitleLine(t);
  }

  /** The first line of the complaint contains the raw input and the error
      mark, so it is shown as an error. */
  lemma NotFoundIsError(input: string)
    ensures Contains(NotFound(input)[0], input)
    ensures Contains(NotFound(input)[0], ErrorMark)
    ensures Classify(NotFound(input)[0]) == Error(NotFound(input)[0])
  {
    var line := NotFound(input)[0];
    assert OccursAt(line, input, 15);
    assert OccursAt(line, ErrorMark, 0);
    assert !StartsWith(line, Prompt) by {
      assert line[0] == 'O';
    }
  }

  /** Command names are non-empty and neither begin nor end with
      whitespace. */
  lemma NameUntrimmed(c: Command)
    ensures |Name(c)| > 0 && !IsSpace(Name(c)[0]) && !IsSpace(Name(c)[|Name(c)| - 1])
  {
  }

  /** Text that normalises to a command's name is answered by that
      command. */
  lemma DispatchByName(input: string, c: Command)
    requires Normalize(input) == Name(c)
    ensures Dispatch(input) == if c == Clear then Reset else Print(Table(c))
  {
    ParseName(c);
    ParseName(Clear);
  }

  /** Case and surrounding whitespace do not matter: any capitalisation of
      a command's name, padded with any whitespace, selects that command. */
  lemma DispatchPadded(pre: string, word: string, post: string, c: Command)
    requires AllSpace(pre) && AllSpace(post)
    requires Lower(word) == Name(c)
    ensures Normalize(pre + word + post) == Name(c)
    ensures Dispatch(pre + word + post) == if c == Clear then Reset else Print(Table(c))
  {
    var input := pre + word + post;
    LowerAppend(pre + word, post);
    LowerAppend(pre, word);
    LowerKeepsSpace(pre);
    LowerKeepsSpace(post);
    assert Lower(input) == pre + Name(c) + post;
    NameUntrimmed(c);
    TrimPadded(pre, Name(c), post);
    DispatchByName(input, c);
  }

  /** Text that names no command is answered with exactly the complaint,
      which quotes the raw input, and the hint. */
  lemma DispatchUnknown(input: string)
    requires Parse(Normalize(input)).None?
    ensures Dispatch(input) == Print(NotFound(input))
    ensures |Dispatch(input).lines| == 2
    ensures Contains(Dispatch(input).lines[0], input)
    ensures Classify(Dispatch(input).lines[0]) == Error(Dispatch(input).lines[0])
    ensures Dispatch(input).lines[1] == Hint
  {
    NotFoundIsError(input);
  }

  /** Example: the help entry for `about` is shown as plain text as
      written, while the intended rule splits it into its padded name and
      its summary. */
  lemma AboutEntry()
    ensures Classify(Synopsis(About)) == Plain(Synopsis(About))
    ensures ClassifyIntended(Synopsis(About))
            == Entry("  about     ", " - ", "Run `whoami` to get my details.")
  {
    IndentedEntry(Column(About), Summary(About));
  }

  /** Example: upper-case text with padding is still `about`. */
  lemma ShoutedAbout()
    ensures Dispatch("  ABOUT  ") == Print(Table(About))
  {
    assert "  ABOUT  " == "  " + "ABOUT" + "  ";
    DispatchPadded("  ", "ABOUT", "  ", About);
  }
}
