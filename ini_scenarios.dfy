/**
 * Concrete inputs and what Load makes of them: the scenarios of
 * IniUtilTests/IniFileTests.cs, and the edge cases the code handles in ways a reader
 * of the documentation might not expect.
 */
module IniScenarios {
  import opened Wrappers
  import opened Text
  import opened DuplicatedKeyNameModes
  import opened IniSections
  import opened IniFiles
  import opened IniProperties

  // ---------------------------------------------------------------------------
  // Evaluating the reader one line at a time

  lemma RunOneLine(opts: Settings, st: LoadState, lines: seq<string>, next: LoadState)
    requires lines != [] && Step(opts, st, lines[0]) == Success(next)
    ensures Run(opts, st, lines) == Run(opts, next, lines[1..])
  {
  }

  lemma RunStops(opts: Settings, st: LoadState, lines: seq<string>, e: LoadError)
    requires lines != [] && Step(opts, st, lines[0]) == Failure(e)
    ensures Run(opts, st, lines) == Outcome(st.sections, Some(e))
  {
  }

  /** A line without comment characters, continuation off, that needs no trimming and
      is not a header, is read as a property. */
  lemma PlainPropertyLine(opts: Settings, st: LoadState, raw: string)
    requires forall i | 0 <= i < |raw| :: raw[i] !in opts.commentChars
    requires !opts.allowLineContinuation
    requires raw != [] && raw[0] !in WhiteSpace && raw[|raw| - 1] !in WhiteSpace && raw[0] != '['
    ensures Step(opts, st, raw) == AddProperty(opts, st.(lineNumber := st.lineNumber + 1), raw)
  {
    var next := st.(lineNumber := st.lineNumber + 1);
    CommentFreeLineIsKept(opts, raw);
    StepJoins(opts, st, next, raw, raw);
    JoinWithoutContinuation(opts, next, raw);
    PropertyText(opts, next, raw);
  }

  lemma JoinWithoutContinuation(opts: Settings, st: LoadState, line: string)
    requires !opts.allowLineContinuation
    ensures Join(opts, st, line) == Complete(opts, st, line)
  {
  }

  /** A property line whose pair merges into section si. */
  lemma PropertyMerged(opts: Settings, st: LoadState, text: string, si: nat, item: Entry, props: seq<Entry>)
    requires SplitProperty(text, opts.delimiter) == item && !IsBlank(item.key)
    requires SectionIndex(st.sections, st.currentSectionName) == Some(si)
    requires Merge(opts.mode, st.sections[si].properties, item, st.lineNumber) == Success(props)
    ensures AddProperty(opts, st, text)
            == Success(st.(sections := st.sections[si := st.sections[si].(properties := props)], currentLine := ""))
  {
  }

  // ---------------------------------------------------------------------------
  // The duplicate-key scenarios (IniFileTests.cs lines 9-51)

  function Mode(mode: DuplicatedKeyNameMode): Settings {
    DefaultSettings.(mode := mode)
  }

  const Duplicated: seq<string> := ["key1=val1", "key2=val2", "key1=val3"]

  function Global(entries: seq<Entry>): Section {
    Section(Some("global"), entries)
  }

  lemma StartOnNothing()
    ensures Start([]) == LoadState([Global([])], "global", 0, false, "")
  {
    var none: seq<Section> := [];
    assert none + [NewSection(Some("global"))] == [Global([])];
  }

  /** The pair of a line whose first delimiter is at position k. */
  lemma SplitAt(text: string, delimiter: char, k: nat)
    requires k < |text| && text[k] == delimiter && forall i | 0 <= i < k :: text[i] != delimiter
    ensures SplitProperty(text, delimiter) == Entry(text[..k], text[k + 1..])
  {
  }

  /** A key and a value joined by a delimiter the key does not hold split back into
      that key and that value. */
  lemma SplitJoined(key: string, value: string, delimiter: char)
    requires forall i | 0 <= i < |key| :: key[i] != delimiter
    ensures SplitProperty(key + [delimiter] + value, delimiter) == Entry(key, value)
  {
    var text := key + [delimiter] + value;
    assert text[|key|] == delimiter;
    assert forall i | 0 <= i < |key| :: text[i] == key[i];
    SplitAt(text, delimiter, |key|);
    assert text[..|key|] == key;
    assert text[|key| + 1..] == value;
  }

  /** The first pair read into the fresh "global" section is its only entry. */
  lemma FirstPairAdded(opts: Settings, text: string, item: Entry)
    requires SplitProperty(text, opts.delimiter) == item && !IsBlank(item.key)
    ensures AddProperty(opts, LoadState([Global([])], "global", 1, false, ""), text)
            == Success(LoadState([Global([item])], "global", 1, false, ""))
  {
    var st := LoadState([Global([])], "global", 1, false, "");
    var none: seq<Entry> := [];
    assert none + [item] == [item];
    assert SectionIndex(st.sections, "global") == Some(0);
    assert KeyIndexIgnoringCase(none, item.key) == None;
    assert Merge(opts.mode, none, item, 1) == Success([item]);
    PropertyMerged(opts, st, text, 0, item, [item]);
    assert st.sections[0 := st.sections[0].(properties := [item])] == [Global([item])];
  }

  /** The first line of an input, when it is a plain property line, is the only entry
      of "global". */
  lemma FirstPropertyLine(opts: Settings, raw: string, item: Entry)
    requires forall i | 0 <= i < |raw| :: raw[i] !in opts.commentChars
    requires !opts.allowLineContinuation
    requires raw != [] && raw[0] !in WhiteSpace && raw[|raw| - 1] !in WhiteSpace && raw[0] != '['
    requires SplitProperty(raw, opts.delimiter) == item && !IsBlank(item.key)
    ensures Step(opts, Start([]), raw) == Success(LoadState([Global([item])], "global", 1, false, ""))
  {
    var st0 := LoadState([Global([])], "global", 0, false, "");
    StartOnNothing();
    PlainPropertyLine(opts, st0, raw);
    assert st0.(lineNumber := st0.lineNumber + 1) == LoadState([Global([])], "global", 1, false, "");
    FirstPairAdded(opts, raw, item);
  }

  /** What PlainPropertyLine asks of a line, for the default comment characters. */
  predicate Plain(raw: string) {
    (forall i | 0 <= i < |raw| :: raw[i] !in DefaultSettings.commentChars) &&
    raw != [] && raw[0] !in WhiteSpace && raw[|raw| - 1] !in WhiteSpace && raw[0] != '['
  }

  lemma DuplicatedLinesArePlain()
    ensures Plain("key1=val1") && Plain("key2=val2") && Plain("key1=val3")
  {
  }

  lemma Split1()
    ensures SplitProperty("key1=val1", '=') == Entry("key1", "val1") && !IsBlank("key1")
  {
    assert "key1=val1" == "key1" + ['='] + "val1";
    SplitJoined("key1", "val1", '=');
    assert "key1"[0] !in WhiteSpace;
  }

  lemma FirstLineOfDuplicated(mode: DuplicatedKeyNameMode)
    ensures Step(Mode(mode), Start([]), "key1=val1")
         == Success(LoadState([Global([Entry("key1", "val1")])], "global", 1, false, ""))
  {
    Split1();
    DuplicatedLinesArePlain();
    FirstPropertyLine(Mode(mode), "key1=val1", Entry("key1", "val1"));
  }

  lemma Split2()
    ensures SplitProperty("key2=val2", '=') == Entry("key2", "val2") && !IsBlank("key2")
  {
    assert "key2=val2" == "key2" + ['='] + "val2";
    SplitJoined("key2", "val2", '=');
    assert "key2"[0] !in WhiteSpace;
  }

  lemma Split3()
    ensures SplitProperty("key1=val3", '=') == Entry("key1", "val3") && !IsBlank("key1")
  {
    assert "key1=val3" == "key1" + ['='] + "val3";
    SplitJoined("key1", "val3", '=');
    assert "key1"[0] !in WhiteSpace;
  }

  /** Two strings that differ at position i once upper-cased are not equal ignoring case. */
  lemma DiffersAt(a: string, b: string, i: nat)
    requires i < |a| && i < |b| && UpperChar(a[i]) != UpperChar(b[i])
    ensures !EqualsIgnoringCase(a, b)
  {
    assert ToUpper(a)[i] != ToUpper(b)[i];
  }

  lemma SecondLineOfDuplicated(mode: DuplicatedKeyNameMode)
    ensures Step(Mode(mode), LoadState([Global([Entry("key1", "val1")])], "global", 1, false, ""), "key2=val2")
         == Success(LoadState([Global([Entry("key1", "val1"), Entry("key2", "val2")])], "global", 2, false, ""))
  {
    var before := LoadState([Global([Entry("key1", "val1")])], "global", 1, false, "");
    var st := before.(lineNumber := 2);
    var props := [Entry("key1", "val1"), Entry("key2", "val2")];
    assert [Entry("key1", "val1")] + [Entry("key2", "val2")] == props;
    assert st.sections[0 := st.sections[0].(properties := props)] == [Global(props)];
    assert SectionIndex(st.sections, "global") == Some(0);
    DiffersAt("key1", "key2", 3);
    assert KeyIndexIgnoringCase([Entry("key1", "val1")], "key2") == None;
    Split2();
    DuplicatedLinesArePlain();
    PlainPropertyLine(Mode(mode), before, "key2=val2");
    PropertyMerged(Mode(mode), st, "key2=val2", 0, Entry("key2", "val2"), props);
  }

  /** The third line repeats key1: what happens depends on the mode alone. */
  lemma ThirdLineOfDuplicated(mode: DuplicatedKeyNameMode)
    ensures var before := LoadState([Global([Entry("key1", "val1"), Entry("key2", "val2")])], "global", 2, false, "");
            Step(Mode(mode), before, "key1=val3")
            == match mode
               case Ignore => Success(before.(lineNumber := 3))
               case Abort => Failure(DuplicatedProperty(3))
               case Allow =>
                 Success(LoadState([Global([Entry("key1", "val1;val3"), Entry("key2", "val2")])], "global", 3, false, ""))
  {
    var props := [Entry("key1", "val1"), Entry("key2", "val2")];
    var merged := [Entry("key1", "val1;val3"), Entry("key2", "val2")];
    var before := LoadState([Global(props)], "global", 2, false, "");
    var st := before.(lineNumber := 3);
    assert "val1" + ";" + "val3" == "val1;val3";
    assert props[0 := Entry("key1", "val1;val3")] == merged;
    assert st.sections[0 := st.sections[0].(properties := merged)] == [Global(merged)];
    assert st.sections[0 := st.sections[0].(properties := props)] == st.sections;
    assert KeyIndexIgnoringCase(props, "key1") == Some(0);
    assert KeyIndex(props, "key1") == Some(0);
    assert SectionIndex(st.sections, "global") == Some(0);
    Split3();
    DuplicatedLinesArePlain();
    PlainPropertyLine(Mode(mode), before, "key1=val3");
    match mode
    case Ignore =>
      PropertyMerged(Mode(mode), st, "key1=val3", 0, Entry("key1", "val3"), props);
    case Abort =>
    case Allow =>
      PropertyMerged(Mode(mode), st, "key1=val3", 0, Entry("key1", "val3"), merged);
  }

  /** The first two lines of the scenario are read the same way under every mode. */
  lemma TwoLinesOfDuplicated(mode: DuplicatedKeyNameMode)
    ensures Parse(Mode(mode), [], Duplicated)
         == Run(Mode(mode), LoadState([Global([Entry("key1", "val1"), Entry("key2", "val2")])], "global", 2, false, ""),
                ["key1=val3"])
  {
    FirstLineOfDuplicated(mode);
    RunOneLine(Mode(mode), Start([]), Duplicated,
               LoadState([Global([Entry("key1", "val1")])], "global", 1, false, ""));
    SecondLineOfDuplicated(mode);
    RunOneLine(Mode(mode), LoadState([Global([Entry("key1", "val1")])], "global", 1, false, ""), Duplicated[1..],
               LoadState([Global([Entry("key1", "val1"), Entry("key2", "val2")])], "global", 2, false, ""));
    assert Duplicated[1..][1..] == ["key1=val3"];
  }

  /** IgnoreModeTest: the repeated key is dropped; "global" keeps two properties. */
  lemma IgnoreModeScenario()
    ensures Parse(Mode(Ignore), [], Duplicated)
         == Outcome([Global([Entry("key1", "val1"), Entry("key2", "val2")])], None)
  {
    TwoLinesOfDuplicated(Ignore);
    ThirdLineOfDuplicated(Ignore);
    var st := LoadState([Global([Entry("key1", "val1"), Entry("key2", "val2")])], "global", 2, false, "");
    RunOneLine(Mode(Ignore), st, ["key1=val3"], st.(lineNumber := 3));
  }

  /** AllowModeTest: two properties, key1 holding "val1;val3". */
  lemma AllowModeScenario()
    ensures Parse(Mode(Allow), [], Duplicated)
         == Outcome([Global([Entry("key1", "val1;val3"), Entry("key2", "val2")])], None)
  {
    TwoLinesOfDuplicated(Allow);
    ThirdLineOfDuplicated(Allow);
    var st := LoadState([Global([Entry("key1", "val1"), Entry("key2", "val2")])], "global", 2, false, "");
    RunOneLine(Mode(Allow), st, ["key1=val3"],
               LoadState([Global([Entry("key1", "val1;val3"), Entry("key2", "val2")])], "global", 3, false, ""));
  }

  /** AbortModeTest: InvalidDataException on line 3, after the first two pairs were stored. */
  lemma AbortModeScenario()
    ensures Parse(Mode(Abort), [], Duplicated)
         == Outcome([Global([Entry("key1", "val1"), Entry("key2", "val2")])], Some(DuplicatedProperty(3)))
  {
    TwoLinesOfDuplicated(Abort);
    ThirdLineOfDuplicated(Abort);
    var st := LoadState([Global([Entry("key1", "val1"), Entry("key2", "val2")])], "global", 2, false, "");
    RunStops(Mode(Abort), st, ["key1=val3"], DuplicatedProperty(3));
  }

  // ---------------------------------------------------------------------------
  // One line at a time, for any settings

  lemma CommentFreeLineIsKept(opts: Settings, raw: string)
    requires forall i | 0 <= i < |raw| :: raw[i] !in opts.commentChars
    ensures StripComment(opts, raw) == Some(raw)
  {
  }

  lemma LineIsCompleted(opts: Settings, st: LoadState, raw: string, line: string)
    requires StripComment(opts, raw) == Some(line) && !opts.allowLineContinuation
    ensures Step(opts, st, raw) == Complete(opts, st.(lineNumber := st.lineNumber + 1), line)
  {
    var next := st.(lineNumber := st.lineNumber + 1);
    StepJoins(opts, st, next, raw, line);
    JoinWithoutContinuation(opts, next, line);
  }

  lemma JoinHolds(opts: Settings, st: LoadState, line: string)
    requires opts.allowLineContinuation && |line| > 0 && line[|line| - 1] == '\\'
    ensures Join(opts, st, line)
            == Success(st.(lineContinue := true,
                           currentLine := (if st.lineContinue then st.currentLine else "")
                                          + TrimEnd(line, ContinuationChars)))
  {
  }

  lemma ContinuedLineIsCompleted(opts: Settings, st: LoadState, raw: string, line: string)
    requires StripComment(opts, raw) == Some(line) && opts.allowLineContinuation
    requires |line| > 0 && line[|line| - 1] != '\\'
    ensures Step(opts, st, raw)
            == Complete(opts, st.(lineNumber := st.lineNumber + 1, lineContinue := false), st.currentLine + line)
  {
    var next := st.(lineNumber := st.lineNumber + 1);
    StepJoins(opts, st, next, raw, line);
    JoinCompletes(opts, next, line);
  }

  lemma JoinCompletes(opts: Settings, st: LoadState, line: string)
    requires opts.allowLineContinuation && |line| > 0 && line[|line| - 1] != '\\'
    ensures Join(opts, st, line) == Complete(opts, st.(lineContinue := false), st.currentLine + line)
  {
  }

  /** A completed line that needs no trimming and is not a header. */
  predicate PropertyShaped(text: string) {
    text != [] && text[0] !in WhiteSpace && text[|text| - 1] !in WhiteSpace &&
    !(text[0] == '[' && text[|text| - 1] == ']')
  }

  lemma PropertyText(opts: Settings, st: LoadState, text: string)
    requires PropertyShaped(text)
    ensures Complete(opts, st, text) == AddProperty(opts, st, text)
  {
    TrimKeepsTrimmed(text);
    assert Trim(text) == text;
    assert |text| != 0 && !(text[0] == '[' && text[|text| - 1] == ']');
  }

  lemma HeaderText(opts: Settings, st: LoadState, text: string)
    requires 2 <= |text| && text[0] == '[' && text[|text| - 1] == ']'
    ensures Complete(opts, st, text) == AddSection(st, text)
  {
    TrimKeepsTrimmed(text);
  }

  /** A header whose name no section has, ignoring case, opens a section. */
  lemma SectionAdded(st: LoadState, text: string)
    requires 2 <= |text| && FindSectionIgnoringCase(st.sections, text[1..|text| - 1]) == Miss
    ensures AddSection(st, text)
            == Success(st.(sections := st.sections + [NewSection(Some(text[1..|text| - 1]))],
                           currentSectionName := text[1..|text| - 1], currentLine := text))
  {
  }

  /** A pair whose key the current section si lacks, ignoring case, is appended to it. */
  lemma KeyAppended(opts: Settings, st: LoadState, text: string, si: nat, item: Entry)
    requires SplitProperty(text, opts.delimiter) == item && !IsBlank(item.key)
    requires SectionIndex(st.sections, st.currentSectionName) == Some(si)
    requires KeyIndexIgnoringCase(st.sections[si].properties, item.key) == None
    ensures AddProperty(opts, st, text)
            == Success(st.(sections := st.sections[si := Section(st.sections[si].name,
                                                                 st.sections[si].properties + [item])],
                           currentLine := ""))
  {
  }

  /** Strings of different lengths are not equal ignoring case. */
  lemma LengthsDiffer(a: string, b: string)
    requires |a| != |b|
    ensures !EqualsIgnoringCase(a, b)
  {
    assert |ToUpper(a)| != |ToUpper(b)|;
  }

  // ---------------------------------------------------------------------------
  // Comments (IniFileTests.cs lines 74-114)

  const HashComments: Settings := DefaultSettings.(commentChars := [';', '#'])

  lemma KeyLineShape()
    ensures PropertyShaped("key1=val1")
    ensures forall i | 0 <= i < |"key1=val1"| :: "key1=val1"[i] !in HashComments.commentChars
  {
  }

  lemma KeyLineAfterComments()
    ensures Step(HashComments, LoadState([Global([])], "global", 2, false, ""), "key1=val1")
         == Success(LoadState([Global([Entry("key1", "val1")])], "global", 3, false, ""))
  {
    var st := LoadState([Global([])], "global", 3, false, "");
    var none: seq<Entry> := [];
    assert none + [Entry("key1", "val1")] == [Entry("key1", "val1")];
    assert st.sections[0 := Section(Some("global"), none + [Entry("key1", "val1")])] == [Global([Entry("key1", "val1")])];
    assert SectionIndex(st.sections, "global") == Some(0);
    assert KeyIndexIgnoringCase(none, "key1") == None;
    Split1();
    KeyLineShape();
    CommentFreeLineIsKept(HashComments, "key1=val1");
    LineIsCompleted(HashComments, LoadState([Global([])], "global", 2, false, ""), "key1=val1", "key1=val1");
    PropertyText(HashComments, st, "key1=val1");
    KeyAppended(HashComments, st, "key1=val1", 0, Entry("key1", "val1"));
  }

  /** CommentCharsTest: lines opening with ';' or '#' are skipped; one property is read. */
  lemma CommentCharsScenario()
    ensures Parse(HashComments, [], [";comment1", "#comment2", "key1=val1"])
         == Outcome([Global([Entry("key1", "val1")])], None)
  {
    var lines := [";comment1", "#comment2", "key1=val1"];
    assert lines[1..] == ["#comment2", "key1=val1"] && lines[1..][1..] == ["key1=val1"];
    StartOnNothing();
    var st0 := LoadState([Global([])], "global", 0, false, "");
    CommentLineIsSkipped(HashComments, st0, ";comment1");
    RunOneLine(HashComments, st0, lines, st0.(lineNumber := 1));
    CommentLineIsSkipped(HashComments, st0.(lineNumber := 1), "#comment2");
    RunOneLine(HashComments, st0.(lineNumber := 1), lines[1..], st0.(lineNumber := 2));
    KeyLineAfterComments();
    RunOneLine(HashComments, st0.(lineNumber := 2), lines[1..][1..],
               LoadState([Global([Entry("key1", "val1")])], "global", 3, false, ""));
    assert lines[1..][1..][1..] == [];
  }

  const Inline: Settings := DefaultSettings.(allowInlineComment := true)

  lemma InlineCommentAt10()
    ensures IndexOfAny("key1=val1 ; this is an inline comment", [';']) == 10
  {
    IndexOfAnyAt("key1=val1 ; this is an inline comment", [';'], 10);
  }

  lemma BeforeInlineComment()
    ensures "key1=val1 ; this is an inline comment"[..10] == "key1=val1 "
  {
  }

  lemma TrailingBlankTrimmed()
    ensures TrimEnd("key1=val1 ", WhiteSpace) == "key1=val1"
  {
    TrimEndAt("key1=val1 ", WhiteSpace, 9);
  }

  lemma InlineLineIsCut()
    ensures StripComment(Inline, "key1=val1 ; this is an inline comment") == Some("key1=val1")
  {
    InlineCommentAt10();
    BeforeInlineComment();
    TrailingBlankTrimmed();
  }

  lemma InlineFirstLine()
    ensures Step(Inline, LoadState([Global([])], "global", 0, false, ""), "key1=val1 ; this is an inline comment")
         == Success(LoadState([Global([Entry("key1", "val1")])], "global", 1, false, ""))
  {
    var st := LoadState([Global([])], "global", 1, false, "");
    var none: seq<Entry> := [];
    assert none + [Entry("key1", "val1")] == [Entry("key1", "val1")];
    assert st.sections[0 := Section(Some("global"), none + [Entry("key1", "val1")])] == [Global([Entry("key1", "val1")])];
    assert SectionIndex(st.sections, "global") == Some(0);
    assert KeyIndexIgnoringCase(none, "key1") == None;
    Split1();
    KeyLineShape();
    InlineLineIsCut();
    LineIsCompleted(Inline, LoadState([Global([])], "global", 0, false, ""), "key1=val1 ; this is an inline comment",
                    "key1=val1");
    PropertyText(Inline, st, "key1=val1");
    KeyAppended(Inline, st, "key1=val1", 0, Entry("key1", "val1"));
  }

  lemma SecondKeyLineShape()
    ensures PropertyShaped("key2=val2")
    ensures forall i | 0 <= i < |"key2=val2"| :: "key2=val2"[i] !in DefaultSettings.commentChars
  {
  }

  lemma InlineSecondLine()
    ensures Step(Inline, LoadState([Global([Entry("key1", "val1")])], "global", 1, false, ""), "key2=val2")
         == Success(LoadState([Global([Entry("key1", "val1"), Entry("key2", "val2")])], "global", 2, false, ""))
  {
    var st := LoadState([Global([Entry("key1", "val1")])], "global", 2, false, "");
    var props := [Entry("key1", "val1"), Entry("key2", "val2")];
    assert [Entry("key1", "val1")] + [Entry("key2", "val2")] == props;
    assert st.sections[0 := Section(Some("global"), [Entry("key1", "val1")] + [Entry("key2", "val2")])] == [Global(props)];
    assert SectionIndex(st.sections, "global") == Some(0);
    DiffersAt("key1", "key2", 3);
    assert KeyIndexIgnoringCase([Entry("key1", "val1")], "key2") == None;
    Split2();
    SecondKeyLineShape();
    CommentFreeLineIsKept(Inline, "key2=val2");
    LineIsCompleted(Inline, LoadState([Global([Entry("key1", "val1")])], "global", 1, false, ""), "key2=val2",
                    "key2=val2");
    PropertyText(Inline, st, "key2=val2");
    KeyAppended(Inline, st, "key2=val2", 0, Entry("key2", "val2"));
  }

  /** InlineCommentTest: the comment and the blanks before it are cut from the value. */
  lemma InlineCommentScenario()
    ensures Parse(Inline, [], ["key1=val1 ; this is an inline comment", "key2=val2"])
         == Outcome([Global([Entry("key1", "val1"), Entry("key2", "val2")])], None)
  {
    var lines := ["key1=val1 ; this is an inline comment", "key2=val2"];
    assert lines[1..] == ["key2=val2"] && lines[1..][1..] == [];
    StartOnNothing();
    InlineFirstLine();
    RunOneLine(Inline, LoadState([Global([])], "global", 0, false, ""), lines,
               LoadState([Global([Entry("key1", "val1")])], "global", 1, false, ""));
    InlineSecondLine();
    RunOneLine(Inline, LoadState([Global([Entry("key1", "val1")])], "global", 1, false, ""), lines[1..],
               LoadState([Global([Entry("key1", "val1"), Entry("key2", "val2")])], "global", 2, false, ""));
  }

  const InlineAndContinuation: Settings := DefaultSettings.(allowInlineComment := true, allowLineContinuation := true)

  lemma ContinuedCommentAt12()
    ensures IndexOfAny("key1=val1   ; comment1\\", [';']) == 12
  {
    IndexOfAnyAt("key1=val1   ; comment1\\", [';'], 12);
  }

  lemma BeforeContinuedComment()
    ensures var raw := "key1=val1   ; comment1\\"; raw[|raw| - 1] == '\\' && raw[..12] == "key1=val1   "
  {
  }

  lemma TrailingBlanksTrimmed()
    ensures TrimEnd("key1=val1   ", WhiteSpace) == "key1=val1"
  {
    TrimEndAt("key1=val1   ", WhiteSpace, 9);
  }

  lemma MarkerReappended()
    ensures "key1=val1" + "\\" == "key1=val1\\"
  {
  }

  lemma MarkerTrimmed()
    ensures TrimEnd("key1=val1\\", ContinuationChars) == "key1=val1"
  {
    TrimEndAt("key1=val1\\", ContinuationChars, 9);
  }

  lemma ContinuedCommentLineIsCut()
    ensures StripComment(InlineAndContinuation, "key1=val1   ; comment1\\") == Some("key1=val1\\")
  {
    ContinuedCommentAt12();
    BeforeContinuedComment();
    TrailingBlanksTrimmed();
    MarkerReappended();
  }

  lemma EndingCommentAt12()
    ensures IndexOfAny(" with line2 ; comment2", [';']) == 12
  {
    IndexOfAnyAt(" with line2 ; comment2", [';'], 12);
  }

  lemma BeforeEndingComment()
    ensures var raw := " with line2 ; comment2"; raw[|raw| - 1] == '2' && raw[..12] == " with line2 "
  {
  }

  lemma EndingBlankTrimmed()
    ensures TrimEnd(" with line2 ", WhiteSpace) == " with line2"
  {
    TrimEndAt(" with line2 ", WhiteSpace, 11);
  }

  lemma EndingCommentLineIsCut()
    ensures StripComment(InlineAndContinuation, " with line2 ; comment2") == Some(" with line2")
  {
    EndingCommentAt12();
    BeforeEndingComment();
    EndingBlankTrimmed();
  }

  lemma JoinedLine()
    ensures "key1=val1" + " with line2" == "key1=val1 with line2"
    ensures PropertyShaped("key1=val1 with line2")
  {
  }

  lemma JoinedLineHalves()
    ensures var text := "key1=val1 with line2";
            text[4] == '=' && (forall i | 0 <= i < 4 :: text[i] != '=') &&
            text[..4] == "key1" && text[5..] == "val1 with line2"
  {
  }

  lemma JoinedLineSplit()
    ensures SplitProperty("key1=val1 with line2", '=') == Entry("key1", "val1 with line2") && !IsBlank("key1")
  {
    JoinedLineHalves();
    SplitAt("key1=val1 with line2", '=', 4);
    Split1();
  }

  lemma ContinuedFirstLine()
    ensures Step(InlineAndContinuation, LoadState([Global([])], "global", 0, false, ""), "key1=val1   ; comment1\\")
         == Success(LoadState([Global([])], "global", 1, true, "key1=val1"))
  {
    ContinuedCommentLineIsCut();
    MarkerTrimmed();
    HeldLine(InlineAndContinuation, LoadState([Global([])], "global", 0, false, ""),
             LoadState([Global([])], "global", 1, false, ""), "key1=val1   ; comment1\\", "key1=val1\\",
             "key1=val1");
  }

  /** A continued line read while no line is held starts the held text. */
  lemma HeldLine(opts: Settings, st: LoadState, next: LoadState, raw: string, line: string, held: string)
    requires next == st.(lineNumber := st.lineNumber + 1) && !st.lineContinue
    requires StripComment(opts, raw) == Some(line) && opts.allowLineContinuation
    requires |line| > 0 && line[|line| - 1] == '\\' && TrimEnd(line, ContinuationChars) == held
    ensures Step(opts, st, raw) == Success(next.(lineContinue := true, currentLine := held))
  {
    StepJoins(opts, st, next, raw, line);
    JoinHolds(opts, next, line);
    assert "" + held == held;
  }

  lemma ContinuedSecondLine()
    ensures Step(InlineAndContinuation, LoadState([Global([])], "global", 1, true, "key1=val1"), " with line2 ; comment2")
         == Success(LoadState([Global([Entry("key1", "val1 with line2")])], "global", 2, false, ""))
  {
    var st := LoadState([Global([])], "global", 2, false, "key1=val1");
    var none: seq<Entry> := [];
    var item := Entry("key1", "val1 with line2");
    assert none + [item] == [item];
    assert st.sections[0 := Section(Some("global"), none + [item])] == [Global([item])];
    assert SectionIndex(st.sections, "global") == Some(0);
    assert KeyIndexIgnoringCase(none, "key1") == None;
    EndingCommentLineIsCut();
    JoinedLine();
    JoinedLineSplit();
    ContinuedLineIsCompleted(InlineAndContinuation, LoadState([Global([])], "global", 1, true, "key1=val1"),
                             " with line2 ; comment2", " with line2");
    PropertyText(InlineAndContinuation, st, "key1=val1 with line2");
    KeyAppended(InlineAndContinuation, st, "key1=val1 with line2", 0, item);
  }

  /** InlineCommentWithLineContinuationTest: the '\' after a comment still joins the
      next line, whose own comment is cut too. */
  lemma InlineCommentWithContinuationScenario()
    ensures Parse(InlineAndContinuation, [], ["key1=val1   ; comment1\\", " with line2 ; comment2"])
         == Outcome([Global([Entry("key1", "val1 with line2")])], None)
  {
    var lines := ["key1=val1   ; comment1\\", " with line2 ; comment2"];
    assert lines[1..] == [" with line2 ; comment2"] && lines[1..][1..] == [];
    StartOnNothing();
    ContinuedFirstLine();
    RunOneLine(InlineAndContinuation, LoadState([Global([])], "global", 0, false, ""), lines,
               LoadState([Global([])], "global", 1, true, "key1=val1"));
    ContinuedSecondLine();
    RunOneLine(InlineAndContinuation, LoadState([Global([])], "global", 1, true, "key1=val1"), lines[1..],
               LoadState([Global([Entry("key1", "val1 with line2")])], "global", 2, false, ""));
  }
}
