/**
 * IniFile: reading an INI text into an ordered list of sections.
 *
 * The reader is specified twice: `Parse` is the line-by-line meaning as pure
 * functions (one `Step` per raw line), and `IniFile.Load` is the imperative loop
 * over the same state the C# keeps (currentSectionName, lineNumber, lineContinue,
 * currentLine) that is proved to compute it.
 */
module IniFiles {
  import opened Wrappers
  import opened Text
  import opened DuplicatedKeyNameModes
  import opened IniSections

  /** The exceptions Load can end with. The sections read so far stay in place. */
  datatype LoadError =
    /** InvalidDataException: a header names a section that exists already (ignoring case). */
    | DuplicateSection(name: string)
    /** InvalidDataException: a property line has an empty or blank key. */
    | EmptyPropertyName(lineNumber: int)
    /** InvalidDataException: a duplicated key under DuplicatedKeyNameMode.Abort. */
    | DuplicatedProperty(lineNumber: int)
    /** IndexOutOfRangeException: line[line.Length - 1] read on an empty line. */
    | LineIndexOutOfRange(lineNumber: int)
    /** KeyNotFoundException: under Allow, the duplicate differs from the stored key in case. */
    | PropertyKeyNotFound(key: string)
    /** NullReferenceException: a section with a null Name is upper-cased. */
    | NullSectionName
    /** InvalidOperationException: this[name] found no section called `name`. */
    | SectionNotFound(name: string)

  /** The settable properties that steer the reader. */
  datatype Settings = Settings(
    delimiter: char,
    commentChars: seq<char>,
    allowInlineComment: bool,
    allowLineContinuation: bool,
    mode: DuplicatedKeyNameMode)

  /** The options of a freshly constructed IniFile. */
  const DefaultSettings := Settings('=', [';'], false, false, Ignore)

  /** What a trailing continuation marker is trimmed of: TrimEnd(' ', '\\'). */
  const ContinuationChars: set<char> := {' ', '\\'}

  /** The reader's state between two raw lines. A null currentLine is the empty
      string here: the source only ever appends to it or overwrites it. */
  datatype LoadState = LoadState(
    sections: seq<Section>,
    currentSectionName: string,
    lineNumber: int,
    lineContinue: bool,
    currentLine: string)

  /** How Load ends: the sections it leaves behind and the exception, if any. */
  datatype Outcome = Outcome(sections: seq<Section>, error: Option<LoadError>)

  /** The outcome of scanning sections with i.Name.ToUpperInvariant() == name.ToUpperInvariant(). */
  datatype SectionMatch = Hit(index: nat) | Miss | NullName

  /** Sections.Where(i => i.Name == name).FirstOrDefault(), as a position. */
  function SectionIndex(sections: seq<Section>, name: string): (r: Option<nat>)
    ensures r.Some? ==> r.value < |sections| && sections[r.value].name == Some(name)
    ensures r.Some? ==> forall j | 0 <= j < r.value :: sections[j].name != Some(name)
    ensures r.None? ==> forall j | 0 <= j < |sections| :: sections[j].name != Some(name)
  {
    if sections == [] then None
    else if sections[0].name == Some(name) then Some(0)
    else match SectionIndex(sections[1..], name)
      case Some(i) => Some(i + 1)
      case None => None
  }

  /** The duplicate-section scan of Load. It stops at the first match; a null name met
      before any match throws. */
  function FindSectionIgnoringCase(sections: seq<Section>, name: string): (r: SectionMatch)
    ensures r.Hit? ==> r.index < |sections| && sections[r.index].name.Some?
                       && EqualsIgnoringCase(sections[r.index].name.value, name)
    ensures r.Miss? ==> forall j | 0 <= j < |sections| ::
                          sections[j].name.Some? && !EqualsIgnoringCase(sections[j].name.value, name)
    ensures r.NullName? ==> exists j | 0 <= j < |sections| :: sections[j].name.None?
    ensures forall j | 0 <= j < |sections| && (r.Miss? || (r.Hit? && j < r.index)) ::
              sections[j].name.Some? && !EqualsIgnoringCase(sections[j].name.value, name)
  {
    if sections == [] then Miss
    else if sections[0].name.None? then NullName
    else if EqualsIgnoringCase(sections[0].name.value, name) then Hit(0)
    else match FindSectionIgnoringCase(sections[1..], name)
      case Hit(i) => Hit(i + 1)
      case Miss => Miss
      case NullName => NullName
  }

  /** Lines 92-109: a line whose first comment character is at position 0 is skipped
      (None); with inline comments, the text from the first comment character on is
      cut and the rest right-trimmed, keeping a trailing '\' when continuation is on. */
  function StripComment(opts: Settings, raw: string): Option<string> {
    var index := IndexOfAny(raw, opts.commentChars);
    if index == 0 then None
    else if opts.allowInlineComment && index > -1 then
      var continuation := opts.allowLineContinuation && raw[|raw| - 1] == '\\';
      var cut := TrimEnd(raw[..index], WhiteSpace);
      Some(if continuation then cut + "\\" else cut)
    else Some(raw)
  }

  /** The key and value of a property line: split at the first delimiter, or the whole
      line as both when there is none. */
  function SplitProperty(text: string, delimiter: char): Entry {
    var index := IndexOf(text, delimiter);
    if index > -1 then Entry(text[..index], text[index + 1..]) else Entry(text, text)
  }

  /** Lines 177-199: add the pair to a section's properties under the duplicate policy. */
  function Merge(mode: DuplicatedKeyNameMode, props: seq<Entry>, item: Entry, lineNumber: int)
    : Result<seq<Entry>, LoadError>
  {
    if KeyIndexIgnoringCase(props, item.key).None? then Success(props + [item])
    else match mode
      case Abort => Failure(DuplicatedProperty(lineNumber))
      case Ignore => Success(props)
      case Allow =>
        // The stored value is read back with the incoming key, so a key that
        // matched only ignoring case is not found.
        match KeyIndex(props, item.key)
        case None => Failure(PropertyKeyNotFound(item.key))
        case Some(j) => Success(props[j := Entry(item.key, props[j].value + ";" + item.value)])
  }

  /** Lines 142-156: a "[name]" header opens a new section, unless the name is taken. */
  function AddSection(st: LoadState, text: string): Result<LoadState, LoadError>
    requires 2 <= |text|
  {
    var name := text[1..|text| - 1];
    match FindSectionIgnoringCase(st.sections, name)
    case NullName => Failure(NullSectionName)
    case Hit(_) => Failure(DuplicateSection(name))
    case Miss =>
      // currentLine keeps the header text: it is cleared after property lines only.
      Success(st.(sections := st.sections + [NewSection(Some(name))], currentSectionName := name,
                  currentLine := text))
  }

  /** Lines 158-201: a property line goes into the current section. */
  function AddProperty(opts: Settings, st: LoadState, text: string): Result<LoadState, LoadError> {
    var item := SplitProperty(text, opts.delimiter);
    if IsBlank(item.key) then Failure(EmptyPropertyName(st.lineNumber))
    else match SectionIndex(st.sections, st.currentSectionName)
      case None => Failure(SectionNotFound(st.currentSectionName))
      case Some(si) =>
        match Merge(opts.mode, st.sections[si].properties, item, st.lineNumber)
        case Failure(e) => Failure(e)
        case Success(props) =>
          Success(st.(sections := st.sections[si := st.sections[si].(properties := props)],
                      currentLine := ""))
  }

  /** Lines 137-201: the logical line, once complete, is trimmed and read as nothing,
      a header or a property. */
  function Complete(opts: Settings, st: LoadState, currentLine: string): Result<LoadState, LoadError> {
    var text := Trim(currentLine);
    if |text| == 0 then Success(st.(currentLine := text))
    else if text[0] == '[' && text[|text| - 1] == ']' then AddSection(st, text)
    else AddProperty(opts, st, text)
  }

  /** Lines 111-137: a line ending in '\' is held back and joined with the following
      ones when continuation is on; otherwise the logical line is complete. */
  function Join(opts: Settings, st: LoadState, line: string): Result<LoadState, LoadError> {
    if opts.allowLineContinuation then
      if |line| == 0 then Failure(LineIndexOutOfRange(st.lineNumber))
      else if line[|line| - 1] == '\\' then
        var joined := (if st.lineContinue then st.currentLine else "") + TrimEnd(line, ContinuationChars);
        Success(st.(lineContinue := true, currentLine := joined))
      else Complete(opts, st.(lineContinue := false), st.currentLine + line)
    else Complete(opts, st, line)
  }

  /** One pass of the while loop of Load (lines 86-202) on one raw line. */
  function Step(opts: Settings, st: LoadState, raw: string): Result<LoadState, LoadError> {
    var st := st.(lineNumber := st.lineNumber + 1);
    match StripComment(opts, raw)
    case None => Success(st)
    case Some(line) => Join(opts, st, line)
  }

  /** The loop over the remaining raw lines; the first exception ends it. */
  function Run(opts: Settings, st: LoadState, lines: seq<string>): Outcome
    decreases |lines|
  {
    if lines == [] then Outcome(st.sections, None)
    else match Step(opts, st, lines[0])
      case Failure(e) => Outcome(st.sections, Some(e))
      case Success(next) => Run(opts, next, lines[1..])
  }

  /** Lines 79-84: a "global" section is appended before the first line is read. */
  function Start(sections: seq<Section>): LoadState {
    LoadState(sections + [NewSection(Some("global"))], "global", 0, false, "")
  }

  /** Load(reader) on an IniFile whose Sections are `sections`, the reader yielding `lines`. */
  function Parse(opts: Settings, sections: seq<Section>, lines: seq<string>): Outcome {
    Run(opts, Start(sections), lines)
  }

  /** Run from line n on, when line n is a comment line: it is skipped. */
  lemma RunSkipsLine(opts: Settings, st: LoadState, next: LoadState, lines: seq<string>, n: nat)
    requires next == st.(lineNumber := st.lineNumber + 1)
    requires n < |lines| && StripComment(opts, lines[n]).None?
    ensures Run(opts, st, lines[n..]) == Run(opts, next, lines[n + 1..])
  {
    RunReadsFirstLine(opts, st, lines[n..]);
    assert lines[n..][0] == lines[n];
    StepSkips(opts, st, next, lines[n]);
    assert lines[n..][1..] == lines[n + 1..];
  }

  /** The rest of a run once a line has been read with result r. */
  function Continue(opts: Settings, sections: seq<Section>, r: Result<LoadState, LoadError>, rest: seq<string>)
    : Outcome
  {
    match r
    case Failure(e) => Outcome(sections, Some(e))
    case Success(next) => Run(opts, next, rest)
  }

  /** Run from line n on, when what is left of line n is `line`: it is joined, which ends
      the run or goes on with the next line. */
  lemma RunJoinsLine(opts: Settings, st: LoadState, next: LoadState, lines: seq<string>, n: nat, line: string)
    requires next == st.(lineNumber := st.lineNumber + 1)
    requires n < |lines| && StripComment(opts, lines[n]) == Some(line)
    ensures Run(opts, st, lines[n..]) == Continue(opts, st.sections, Join(opts, next, line), lines[n + 1..])
  {
    RunReadsFirstLine(opts, st, lines[n..]);
    assert lines[n..][0] == lines[n];
    StepJoins(opts, st, next, lines[n], line);
    assert lines[n..][1..] == lines[n + 1..];
  }

  /** One turn of the loop: the first line is read, then the rest. */
  lemma RunReadsFirstLine(opts: Settings, st: LoadState, lines: seq<string>)
    requires lines != []
    ensures Run(opts, st, lines) == Continue(opts, st.sections, Step(opts, st, lines[0]), lines[1..])
  {
  }

  /** A comment line is only counted. */
  lemma StepSkips(opts: Settings, st: LoadState, next: LoadState, raw: string)
    requires next == st.(lineNumber := st.lineNumber + 1)
    requires StripComment(opts, raw).None?
    ensures Step(opts, st, raw) == Success(next)
  {
  }

  /** A line that is not a comment line is counted and handed to Join. */
  lemma StepJoins(opts: Settings, st: LoadState, next: LoadState, raw: string, line: string)
    requires next == st.(lineNumber := st.lineNumber + 1)
    requires StripComment(opts, raw) == Some(line)
    ensures Step(opts, st, raw) == Join(opts, next, line)
  {
    match StripComment(opts, raw)
    case Some(l) =>
      assert l == line;
  }

  /** The reader state that a helper of Load stands for with its outcome. */
  function Resume(outcome: Result<(string, string), LoadError>, sections: seq<Section>, lineNumber: int,
                  lineContinue: bool): Result<LoadState, LoadError>
  {
    match outcome
    case Failure(e) => Failure(e)
    case Success(next) => Success(LoadState(sections, next.0, lineNumber, lineContinue, next.1))
  }

  /** The reader state that JoinLine stands for with its outcome. */
  function Proceed(outcome: Result<(string, bool, string), LoadError>, sections: seq<Section>, lineNumber: int)
    : Result<LoadState, LoadError>
  {
    match outcome
    case Failure(e) => Failure(e)
    case Success(next) => Success(LoadState(sections, next.0, lineNumber, next.1, next.2))
  }

  /** A completed line that is neither empty nor a header is a property line. */
  lemma CompleteReadsProperty(opts: Settings, st: LoadState, line: string)
    requires var text := Trim(line); |text| > 0 && !(text[0] == '[' && text[|text| - 1] == ']')
    ensures Complete(opts, st, line) == AddProperty(opts, st, Trim(line))
  {
  }

  class IniFile {
    var sections: seq<Section>
    var nameValueDelimiter: char
    var duplicatedKeyNameMode: DuplicatedKeyNameMode
    var commentChars: seq<char>
    var allowInlineComment: bool
    var allowLineContinuation: bool

    /** No sections; '=' as delimiter, ';' as the only comment character, Ignore,
        neither inline comments nor line continuation. */
    constructor ()
      ensures sections == []
      ensures CurrentSettings() == DefaultSettings
    {
      sections := [];
      nameValueDelimiter := '=';
      duplicatedKeyNameMode := Ignore;
      commentChars := [';'];
      allowInlineComment := false;
      allowLineContinuation := false;
    }

    function CurrentSettings(): Settings
      reads this
    {
      Settings(nameValueDelimiter, commentChars, allowInlineComment, allowLineContinuation,
              duplicatedKeyNameMode)
    }

    /** The indexer this[sectionName]: the first section with exactly that name, or
        InvalidOperationException from First(). */
    function Item(sectionName: string): (r: Result<Section, LoadError>)
      reads this
      ensures r.Success? <==> exists i | 0 <= i < |sections| :: sections[i].name == Some(sectionName)
      ensures r.Success? ==> exists i | 0 <= i < |sections| :: sections[i] == r.value
                               && r.value.name == Some(sectionName)
                               && forall j | 0 <= j < i :: sections[j].name != Some(sectionName)
      ensures r.Failure? ==> r.error == SectionNotFound(sectionName)
    {
      match SectionIndex(sections, sectionName)
      case Some(i) => Success(sections[i])
      case None => Failure(SectionNotFound(sectionName))
    }

    /** Find(sectionName): as the indexer, but null instead of the exception. */
    function Find(sectionName: string): (r: Option<Section>)
      reads this
      ensures r.Some? <==> exists i | 0 <= i < |sections| :: sections[i].name == Some(sectionName)
      ensures r.Some? ==> Item(sectionName) == Success(r.value)
    {
      match SectionIndex(sections, sectionName)
      case Some(i) => Some(sections[i])
      case None => None
    }

    /** Lines 137-201 of Load: trim the completed logical line and read it as nothing,
        a section header or a property; on success the new section name and currentLine. */
    method ReadLogicalLine(currentSectionName: string, lineNumber: int, logicalLine: string,
                           ghost lineContinue: bool, ghost previousLine: string)
      returns (outcome: Result<(string, string), LoadError>)
      modifies this`sections
      ensures outcome.Failure? ==> sections == old(sections)
      ensures Complete(CurrentSettings(), LoadState(old(sections), currentSectionName, lineNumber, lineContinue,
                                                    previousLine), logicalLine)
              == Resume(outcome, sections, lineNumber, lineContinue)
    {
      var currentLine := Trim(logicalLine);
      if |currentLine| == 0 {
        return Success((currentSectionName, currentLine));
      }
      if currentLine[0] == '[' && currentLine[|currentLine| - 1] == ']' {
        outcome := ReadHeader(currentLine, currentSectionName, lineNumber, lineContinue, previousLine);
      } else {
        CompleteReadsProperty(CurrentSettings(), LoadState(sections, currentSectionName, lineNumber, lineContinue,
                                                           previousLine), logicalLine);
        outcome := ReadProperty(currentLine, currentSectionName, lineNumber, lineContinue, previousLine);
      }
    }

    /** Lines 142-156 of Load: a "[name]" header adds a section unless its name is taken. */
    method ReadHeader(currentLine: string, ghost currentSectionName: string, ghost lineNumber: int,
                      ghost lineContinue: bool, ghost previousLine: string)
      returns (outcome: Result<(string, string), LoadError>)
      requires 2 <= |currentLine|
      modifies this`sections
      ensures outcome.Failure? ==> sections == old(sections)
      ensures AddSection(LoadState(old(sections), currentSectionName, lineNumber, lineContinue, previousLine),
                         currentLine)
              == Resume(outcome, sections, lineNumber, lineContinue)
    {
      var name := currentLine[1..|currentLine| - 1];
      var existing := FindSectionIgnoringCase(sections, name);
      if existing.NullName? {
        return Failure(NullSectionName);
      }
      if existing.Hit? {
        return Failure(DuplicateSection(name));
      }
      sections := sections + [NewSection(Some(name))];
      return Success((name, currentLine));
    }

    /** Lines 158-201 of Load: a property line goes into the current section under the
        duplicate policy; currentLine is cleared afterwards. */
    method ReadProperty(currentLine: string, currentSectionName: string, lineNumber: int,
                        ghost lineContinue: bool, ghost previousLine: string)
      returns (outcome: Result<(string, string), LoadError>)
      modifies this`sections
      ensures outcome.Failure? ==> sections == old(sections)
      ensures AddProperty(CurrentSettings(), LoadState(old(sections), currentSectionName, lineNumber, lineContinue,
                                                       previousLine), currentLine)
              == Resume(outcome, sections, lineNumber, lineContinue)
    {
      var index := IndexOf(currentLine, nameValueDelimiter);
      var item := if index > -1 then Entry(currentLine[..index], currentLine[index + 1..])
                  else Entry(currentLine, currentLine);
      assert item == SplitProperty(currentLine, nameValueDelimiter);
      if IsBlank(item.key) {
        return Failure(EmptyPropertyName(lineNumber));
      }
      var current := SectionIndex(sections, currentSectionName);
      if current.None? {
        return Failure(SectionNotFound(currentSectionName));
      }
      var props := sections[current.value].properties;
      ghost var stored := props;
      var existingProperty := KeyIndexIgnoringCase(props, item.key);
      if existingProperty.None? {
        props := props + [item];
      } else {
        match duplicatedKeyNameMode
        case Abort =>
          return Failure(DuplicatedProperty(lineNumber));
        case Ignore =>
        case Allow =>
          var exact := KeyIndex(props, item.key);
          if exact.None? {
            return Failure(PropertyKeyNotFound(item.key));
          }
          props := props[exact.value := Entry(item.key, props[exact.value].value + ";" + item.value)];
      }
      assert Merge(duplicatedKeyNameMode, stored, item, lineNumber) == Success(props);
      sections := sections[current.value := sections[current.value].(properties := props)];
      return Success((currentSectionName, ""));
    }

    /** Lines 92-109 of Load: skip a comment line (None), or cut an inline comment. */
    method StripLineComment(line: string) returns (r: Option<string>)
      ensures r == StripComment(CurrentSettings(), line)
    {
      var index := IndexOfAny(line, commentChars);
      if index == 0 {
        return None;
      }
      if allowInlineComment && index > -1 {
        var continuation := false;
        if allowLineContinuation && line[|line| - 1] == '\\' {
          continuation := true;
        }
        var cut := TrimEnd(line[..index], WhiteSpace);
        if continuation {
          cut := cut + "\\";
        }
        return Some(cut);
      }
      return Some(line);
    }

    /** Lines 111-201 of Load: hold back a continued line, or read the completed logical
        line; on success the new section name, lineContinue and currentLine. */
    method JoinLine(line: string, currentSectionName: string, lineNumber: int, lineContinue: bool,
                    currentLine: string)
      returns (outcome: Result<(string, bool, string), LoadError>)
      modifies this`sections
      ensures outcome.Failure? ==> sections == old(sections)
      ensures Join(CurrentSettings(), LoadState(old(sections), currentSectionName, lineNumber, lineContinue,
                                                currentLine), line)
              == Proceed(outcome, sections, lineNumber)
    {
      if allowLineContinuation {
        if |line| == 0 {
          return Failure(LineIndexOutOfRange(lineNumber));
        }
        if line[|line| - 1] == '\\' {
          var joined := TrimEnd(line, ContinuationChars);
          if lineContinue {
            joined := currentLine + joined;
          } else {
            assert "" + joined == joined;
          }
          return Success((currentSectionName, true, joined));
        }
        var read := ReadLogicalLine(currentSectionName, lineNumber, currentLine + line, false, currentLine);
        outcome := match read
          case Failure(e) => Failure(e)
          case Success(next) => Success((next.0, false, next.1));
      } else {
        var read := ReadLogicalLine(currentSectionName, lineNumber, line, lineContinue, currentLine);
        outcome := match read
          case Failure(e) => Failure(e)
          case Success(next) => Success((next.0, lineContinue, next.1));
      }
    }

    /** One pass of the while loop of Load (lines 88-201) on line n of `lines`: a comment
        line only counts; any other line is joined and, once complete, read. The loop
        then goes on from the state the outcome gives, or ends with its exception. */
    method ReadLine(raw: string, ghost lines: seq<string>, ghost n: nat, currentSectionName: string,
                    lineNumber: int, lineContinue: bool, currentLine: string)
      returns (outcome: Result<(string, bool, string), LoadError>)
      requires n < |lines| && lines[n] == raw
      modifies this`sections
      ensures outcome.Failure? ==> sections == old(sections)
      ensures Run(CurrentSettings(), LoadState(old(sections), currentSectionName, lineNumber, lineContinue,
                                               currentLine), lines[n..])
              == Continue(CurrentSettings(), old(sections), Proceed(outcome, sections, lineNumber + 1), lines[n + 1..])
    {
      ghost var before := LoadState(sections, currentSectionName, lineNumber, lineContinue, currentLine);
      ghost var counted := before.(lineNumber := lineNumber + 1);
      var line := StripLineComment(raw);
      if line.None? {
        RunSkipsLine(CurrentSettings(), before, counted, lines, n);
        return Success((currentSectionName, lineContinue, currentLine));
      }
      RunJoinsLine(CurrentSettings(), before, counted, lines, n, line.value);
      outcome := JoinLine(line.value, currentSectionName, lineNumber + 1, lineContinue, currentLine);
    }

    /** Load(reader) over the lines the reader yields, in order. */
    method Load(lines: seq<string>) returns (error: Option<LoadError>)
      modifies this`sections
      ensures Outcome(sections, error) == Parse(CurrentSettings(), old(sections), lines)
    {
      ghost var opts := CurrentSettings();
      ghost var goal := Parse(opts, sections, lines);
      var currentSectionName := "global";
      sections := sections + [NewSection(Some(currentSectionName))];
      var lineNumber := 0;
      var lineContinue := false;
      var currentLine := "";
      var n := 0;
      while n < |lines|
        invariant n <= |lines|
        invariant Run(opts, LoadState(sections, currentSectionName, lineNumber, lineContinue, currentLine),
                      lines[n..]) == goal
      {
        var outcome := ReadLine(lines[n], lines, n, currentSectionName, lineNumber, lineContinue, currentLine);
        assert CurrentSettings() == opts;
        lineNumber := lineNumber + 1;
        n := n + 1;
        match outcome
        case Failure(e) =>
          return Some(e);
        case Success(next) =>
          currentSectionName, lineContinue, currentLine := next.0, next.1, next.2;
      }
      assert lines[n..] == [];
      error := None;
    }
  }
}
