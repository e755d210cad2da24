/**
 * Scenarios of IniUtilTests/IniFileTests.cs that involve section headers, empty input
 * and lookups, and the edge cases of headers, case and repeated loads.
 */
module IniSectionScenarios {
  import opened Wrappers
  import opened Text
  import opened DuplicatedKeyNameModes
  import opened IniSections
  import opened IniFiles
  import opened IniProperties
  import opened IniScenarios

  // ---------------------------------------------------------------------------
  // Empty input (IniFileTests.cs lines 137-156)

  /** EmptyContentsTest: no lines leave one empty "global" section. */
  lemma EmptyContentsScenario()
    ensures Parse(DefaultSettings, [], []) == Outcome([Global([])], None)
  {
    StartOnNothing();
  }

  const AllCommented: seq<string> := ["; all", "; lines", "; are", "; commented", "; out"]

  /** EmptyContentsWithCommentsTest: only comment lines leave one empty "global" section. */
  lemma EmptyContentsWithCommentsScenario()
    ensures Parse(DefaultSettings, [], AllCommented) == Outcome([Global([])], None)
  {
    var none: seq<Section> := [];
    assert none + [Global([])] == [Global([])];
    assert forall i | 0 <= i < |AllCommented| :: AllCommented[i][0] == ';';
    ParseOfCommentsIsEmpty(DefaultSettings, [], AllCommented);
  }

  // ---------------------------------------------------------------------------
  // Looking up a section that is not there (IniFileTests.cs lines 116-135)

  lemma OneKeyLine()
    ensures Parse(DefaultSettings, [], ["key1=val1"]) == Outcome([Global([Entry("key1", "val1")])], None)
  {
    FirstLineOfDuplicated(Ignore);
    assert Mode(Ignore) == DefaultSettings;
    StartOnNothing();
    RunOneLine(DefaultSettings, Start([]), ["key1=val1"],
               LoadState([Global([Entry("key1", "val1")])], "global", 1, false, ""));
  }

  /** NotExistSectionTest and NotExistSectionWithoutExceptionTest: after one property
      line, on an IniFile holding what Load read, the indexer throws for
      "InvalidSectionName" and Find gives null. */
  lemma NotExistSectionScenario(f: IniFile)
    requires f.sections == Parse(DefaultSettings, [], ["key1=val1"]).sections
    ensures Parse(DefaultSettings, [], ["key1=val1"]).error == None
    ensures f.Item("InvalidSectionName") == Failure(SectionNotFound("InvalidSectionName"))
    ensures f.Find("InvalidSectionName") == None
  {
    OneKeyLine();
    assert Some("global") != Some("InvalidSectionName");
    assert SectionIndex(f.sections, "InvalidSectionName") == None;
  }

  // ---------------------------------------------------------------------------
  // Headers (IniFileTests.cs lines 158-186)

  lemma HeaderNames()
    ensures "[Section1]"[1..|"[Section1]"| - 1] == "Section1"
    ensures "[Section2]"[1..|"[Section2]"| - 1] == "Section2"
    ensures forall i | 0 <= i < |"[Section1]"| :: "[Section1]"[i] !in DefaultSettings.commentChars
    ensures forall i | 0 <= i < |"[Section2]"| :: "[Section2]"[i] !in DefaultSettings.commentChars
  {
  }

  lemma SectionNamesDiffer()
    ensures !EqualsIgnoringCase("global", "Section1")
    ensures !EqualsIgnoringCase("global", "Section2")
    ensures !EqualsIgnoringCase("Section1", "Section2")
  {
    LengthsDiffer("global", "Section1");
    LengthsDiffer("global", "Section2");
    DiffersAt("Section1", "Section2", 7);
  }

  function S1(entries: seq<Entry>): Section {
    Section(Some("Section1"), entries)
  }

  function S2(entries: seq<Entry>): Section {
    Section(Some("Section2"), entries)
  }

  const Key1: Entry := Entry("key1", "val1")

  /** The first section named `name` is at position k. */
  lemma SectionAt(sections: seq<Section>, name: string, k: nat)
    requires k < |sections| && sections[k].name == Some(name)
    requires forall j | 0 <= j < k :: sections[j].name != Some(name)
    ensures SectionIndex(sections, name) == Some(k)
  {
    if k > 0 {
      assert sections[0].name != Some(name);
      SectionAt(sections[1..], name, k - 1);
    }
  }

  lemma FirstHeaderIsNew()
    ensures FindSectionIgnoringCase([Global([])], "Section1") == Miss
  {
    SectionNamesDiffer();
  }

  lemma FirstHeaderAdded()
    ensures AddSection(LoadState([Global([])], "global", 1, false, ""), "[Section1]")
         == Success(LoadState([Global([]), S1([])], "Section1", 1, false, "[Section1]"))
  {
    HeaderNames();
    FirstHeaderIsNew();
    assert [Global([])] + [NewSection(Some("Section1"))] == [Global([]), S1([])];
    SectionAdded(LoadState([Global([])], "global", 1, false, ""), "[Section1]");
  }

  /** "[Section1]" as the first line opens Section1 after "global". */
  lemma FirstHeader(mode: DuplicatedKeyNameMode)
    ensures Step(Mode(mode), LoadState([Global([])], "global", 0, false, ""), "[Section1]")
         == Success(LoadState([Global([]), S1([])], "Section1", 1, false, "[Section1]"))
  {
    var before := LoadState([Global([])], "global", 0, false, "");
    var st := LoadState([Global([])], "global", 1, false, "");
    assert before.(lineNumber := before.lineNumber + 1) == st;
    HeaderNames();
    CommentFreeLineIsKept(Mode(mode), "[Section1]");
    LineIsCompleted(Mode(mode), before, "[Section1]", "[Section1]");
    assert Step(Mode(mode), before, "[Section1]") == Complete(Mode(mode), st, "[Section1]");
    HeaderText(Mode(mode), st, "[Section1]");
    FirstHeaderAdded();
  }

  /** "key1=val1" right after the header goes to Section1. */
  lemma KeyInFirstSection(mode: DuplicatedKeyNameMode)
    ensures Step(Mode(mode), LoadState([Global([]), S1([])], "Section1", 1, false, "[Section1]"), "key1=val1")
         == Success(LoadState([Global([]), S1([Key1])], "Section1", 2, false, ""))
  {
    var st := LoadState([Global([]), S1([])], "Section1", 2, false, "[Section1]");
    var none: seq<Entry> := [];
    assert none + [Key1] == [Key1];
    assert st.sections[1 := Section(Some("Section1"), none + [Key1])] == [Global([]), S1([Key1])];
    SectionsFound();
    assert KeyIndexIgnoringCase(none, "key1") == None;
    Split1();
    KeyLineShape();
    CommentFreeLineIsKept(Mode(mode), "key1=val1");
    LineIsCompleted(Mode(mode), LoadState([Global([]), S1([])], "Section1", 1, false, "[Section1]"), "key1=val1",
                    "key1=val1");
    PropertyText(Mode(mode), st, "key1=val1");
    KeyAppended(Mode(mode), st, "key1=val1", 1, Key1);
  }

  lemma SecondHeaderIsNew()
    ensures FindSectionIgnoringCase([Global([]), S1([Key1])], "Section2") == Miss
  {
    SectionNamesDiffer();
    assert FindSectionIgnoringCase([S1([Key1])], "Section2") == Miss;
    assert [Global([]), S1([Key1])][1..] == [S1([Key1])];
  }

  lemma SecondHeaderAdded()
    ensures AddSection(LoadState([Global([]), S1([Key1])], "Section1", 3, false, ""), "[Section2]")
         == Success(LoadState([Global([]), S1([Key1]), S2([])], "Section2", 3, false, "[Section2]"))
  {
    HeaderNames();
    SecondHeaderIsNew();
    assert [Global([]), S1([Key1])] + [NewSection(Some("Section2"))] == [Global([]), S1([Key1]), S2([])];
    SectionAdded(LoadState([Global([]), S1([Key1])], "Section1", 3, false, ""), "[Section2]");
  }

  lemma SecondHeader()
    ensures Step(DefaultSettings, LoadState([Global([]), S1([Key1])], "Section1", 2, false, ""), "[Section2]")
         == Success(LoadState([Global([]), S1([Key1]), S2([])], "Section2", 3, false, "[Section2]"))
  {
    var before := LoadState([Global([]), S1([Key1])], "Section1", 2, false, "");
    var st := LoadState([Global([]), S1([Key1])], "Section1", 3, false, "");
    assert before.(lineNumber := before.lineNumber + 1) == st;
    HeaderNames();
    CommentFreeLineIsKept(DefaultSettings, "[Section2]");
    LineIsCompleted(DefaultSettings, before, "[Section2]", "[Section2]");
    assert Step(DefaultSettings, before, "[Section2]") == Complete(DefaultSettings, st, "[Section2]");
    HeaderText(DefaultSettings, st, "[Section2]");
    SecondHeaderAdded();
  }

  lemma SectionsFound()
    ensures SectionIndex([Global([]), S1([])], "Section1") == Some(1)
    ensures SectionIndex([Global([]), S1([Key1])], "Section1") == Some(1)
    ensures SectionIndex([Global([]), S1([Key1]), S2([])], "Section2") == Some(2)
    ensures SectionIndex([Global([]), S1([Key1]), S2([Key1])], "Section1") == Some(1)
    ensures SectionIndex([Global([]), S1([Key1]), S2([Key1])], "Section2") == Some(2)
  {
    SectionNamesDiffer();
    assert "global" != "Section1" && "global" != "Section2" && "Section1" != "Section2";
    SectionAt([Global([]), S1([])], "Section1", 1);
    SectionAt([Global([]), S1([Key1])], "Section1", 1);
    SectionAt([Global([]), S1([Key1]), S2([])], "Section2", 2);
    SectionAt([Global([]), S1([Key1]), S2([Key1])], "Section1", 1);
    SectionAt([Global([]), S1([Key1]), S2([Key1])], "Section2", 2);
  }

  lemma KeyInSecondSection()
    ensures Step(DefaultSettings, LoadState([Global([]), S1([Key1]), S2([])], "Section2", 3, false, "[Section2]"),
                 "key1=val1")
         == Success(LoadState([Global([]), S1([Key1]), S2([Key1])], "Section2", 4, false, ""))
  {
    var st := LoadState([Global([]), S1([Key1]), S2([])], "Section2", 4, false, "[Section2]");
    var none: seq<Entry> := [];
    assert none + [Key1] == [Key1];
    assert st.sections[2 := Section(Some("Section2"), none + [Key1])] == [Global([]), S1([Key1]), S2([Key1])];
    SectionsFound();
    assert KeyIndexIgnoringCase(none, "key1") == None;
    Split1();
    KeyLineShape();
    CommentFreeLineIsKept(DefaultSettings, "key1=val1");
    LineIsCompleted(DefaultSettings, LoadState([Global([]), S1([Key1]), S2([])], "Section2", 3, false, "[Section2]"),
                    "key1=val1", "key1=val1");
    PropertyText(DefaultSettings, st, "key1=val1");
    KeyAppended(DefaultSettings, st, "key1=val1", 2, Key1);
  }

  const TwoSections: seq<string> := ["[Section1]", "key1=val1", "[Section2]", "key1=val1"]

  lemma TwoSectionsRead()
    ensures Parse(DefaultSettings, [], TwoSections) == Outcome([Global([]), S1([Key1]), S2([Key1])], None)
  {
    var lines := TwoSections;
    assert lines[1..] == ["key1=val1", "[Section2]", "key1=val1"];
    assert lines[1..][1..] == ["[Section2]", "key1=val1"];
    assert lines[1..][1..][1..] == ["key1=val1"];
    assert Mode(Ignore) == DefaultSettings;
    StartOnNothing();
    FirstHeader(Ignore);
    RunOneLine(DefaultSettings, LoadState([Global([])], "global", 0, false, ""), lines,
               LoadState([Global([]), S1([])], "Section1", 1, false, "[Section1]"));
    KeyInFirstSection(Ignore);
    RunOneLine(DefaultSettings, LoadState([Global([]), S1([])], "Section1", 1, false, "[Section1]"), lines[1..],
               LoadState([Global([]), S1([Key1])], "Section1", 2, false, ""));
    SecondHeader();
    RunOneLine(DefaultSettings, LoadState([Global([]), S1([Key1])], "Section1", 2, false, ""), lines[1..][1..],
               LoadState([Global([]), S1([Key1]), S2([])], "Section2", 3, false, "[Section2]"));
    KeyInSecondSection();
    RunOneLine(DefaultSettings, LoadState([Global([]), S1([Key1]), S2([])], "Section2", 3, false, "[Section2]"),
               lines[1..][1..][1..], LoadState([Global([]), S1([Key1]), S2([Key1])], "Section2", 4, false, ""));
  }

  /** MultipleSectionsTest: three sections, and key1 reads "val1" in both named ones. */
  lemma MultipleSectionsScenario()
    ensures var out := Parse(DefaultSettings, [], TwoSections);
            out.error == None && |out.sections| == 3 &&
            SectionIndex(out.sections, "Section1") == Some(1) &&
            SectionIndex(out.sections, "Section2") == Some(2) &&
            out.sections[1].Get("key1") == Some("val1") && out.sections[2].Get("key1") == Some("val1")
  {
    TwoSectionsRead();
    SectionsFound();
    assert KeyIndex([Key1], "key1") == Some(0);
  }

  lemma RepeatedKeyHalves()
    ensures var text := "key1=val2";
            text[4] == '=' && (forall i | 0 <= i < 4 :: text[i] != '=') &&
            text[..4] == "key1" && text[5..] == "val2"
  {
  }

  lemma RepeatedKeyIsPlain()
    ensures Plain("key1=val2")
  {
  }

  lemma RepeatedKeyLine()
    ensures SplitProperty("key1=val2", '=') == Entry("key1", "val2")
    ensures Plain("key1=val2")
  {
    RepeatedKeyHalves();
    SplitAt("key1=val2", '=', 4);
    RepeatedKeyIsPlain();
  }

  lemma RepeatedKeyMerge()
    ensures AddProperty(Mode(Abort), LoadState([Global([]), S1([Key1])], "Section1", 3, false, ""), "key1=val2")
         == Failure(DuplicatedProperty(3))
  {
    RepeatedKeyLine();
    Split1();
    SectionsFound();
    assert KeyIndexIgnoringCase([Key1], "key1") == Some(0);
  }

  lemma RepeatedKeyInSection()
    ensures Step(Mode(Abort), LoadState([Global([]), S1([Key1])], "Section1", 2, false, ""), "key1=val2")
         == Failure(DuplicatedProperty(3))
  {
    RepeatedKeyLine();
    PlainPropertyLine(Mode(Abort), LoadState([Global([]), S1([Key1])], "Section1", 2, false, ""), "key1=val2");
    RepeatedKeyMerge();
  }

  /** DuplicateKeyNameInSectionTest: under Abort a repeated key in Section1 is an error
      on line 3, after the header and the first pair were stored. */
  lemma DuplicateKeyNameInSectionScenario()
    ensures Parse(Mode(Abort), [], ["[Section1]", "key1=val1", "key1=val2"])
         == Outcome([Global([]), S1([Key1])], Some(DuplicatedProperty(3)))
  {
    var lines := ["[Section1]", "key1=val1", "key1=val2"];
    assert lines[1..] == ["key1=val1", "key1=val2"] && lines[1..][1..] == ["key1=val2"];
    StartOnNothing();
    FirstHeader(Abort);
    RunOneLine(Mode(Abort), LoadState([Global([])], "global", 0, false, ""), lines,
               LoadState([Global([]), S1([])], "Section1", 1, false, "[Section1]"));
    KeyInFirstSection(Abort);
    RunOneLine(Mode(Abort), LoadState([Global([]), S1([])], "Section1", 1, false, "[Section1]"), lines[1..],
               LoadState([Global([]), S1([Key1])], "Section1", 2, false, ""));
    RepeatedKeyInSection();
    RunStops(Mode(Abort), LoadState([Global([]), S1([Key1])], "Section1", 2, false, ""), lines[1..][1..],
             DuplicatedProperty(3));
  }

  // ---------------------------------------------------------------------------
  // Edge cases the tests do not cover

  /** Lines of the case-mismatch input: a pair under "Key", then one under "key". */
  lemma CaseLines()
    ensures Plain("Key=a") && Plain("key=b")
    ensures var a := "Key=a"; a[3] == '=' && (forall i | 0 <= i < 3 :: a[i] != '=') && a[..3] == "Key" && a[4..] == "a"
    ensures var b := "key=b"; b[3] == '=' && (forall i | 0 <= i < 3 :: b[i] != '=') && b[..3] == "key" && b[4..] == "b"
  {
  }

  lemma CaseSplits()
    ensures SplitProperty("Key=a", '=') == Entry("Key", "a") && !IsBlank("Key")
    ensures SplitProperty("key=b", '=') == Entry("key", "b") && !IsBlank("key")
  {
    CaseLines();
    SplitAt("Key=a", '=', 3);
    SplitAt("key=b", '=', 3);
    assert "Key"[0] !in WhiteSpace && "key"[0] !in WhiteSpace;
  }

  lemma KeysMatchIgnoringCase()
    ensures EqualsIgnoringCase("Key", "key") && "Key" != "key"
  {
    assert ToUpper("Key") == "KEY" == ToUpper("key");
    assert "Key"[0] != "key"[0];
  }

  lemma CaseFirstLine()
    ensures Step(Mode(Allow), Start([]), "Key=a") == Success(LoadState([Global([Entry("Key", "a")])], "global", 1, false, ""))
  {
    CaseSplits();
    CaseLines();
    FirstPropertyLine(Mode(Allow), "Key=a", Entry("Key", "a"));
  }

  lemma CaseMerge()
    ensures Merge(Allow, [Entry("Key", "a")], Entry("key", "b"), 2) == Failure(PropertyKeyNotFound("key"))
  {
    KeysMatchIgnoringCase();
    assert KeyIndexIgnoringCase([Entry("Key", "a")], "key") == Some(0);
    assert KeyIndex([Entry("Key", "a")], "key") == None;
  }

  lemma CaseSecondProperty()
    ensures AddProperty(Mode(Allow), LoadState([Global([Entry("Key", "a")])], "global", 2, false, ""), "key=b")
         == Failure(PropertyKeyNotFound("key"))
  {
    assert SectionIndex([Global([Entry("Key", "a")])], "global") == Some(0);
    CaseSplits();
    CaseMerge();
  }

  lemma CaseSecondLine()
    ensures Step(Mode(Allow), LoadState([Global([Entry("Key", "a")])], "global", 1, false, ""), "key=b")
         == Failure(PropertyKeyNotFound("key"))
  {
    CaseLines();
    PlainPropertyLine(Mode(Allow), LoadState([Global([Entry("Key", "a")])], "global", 1, false, ""), "key=b");
    assert LoadState([Global([Entry("Key", "a")])], "global", 1, false, "").(lineNumber := 1 + 1)
        == LoadState([Global([Entry("Key", "a")])], "global", 2, false, "");
    CaseSecondProperty();
  }

  /** Under Allow, a key that repeats an earlier one only ignoring case is looked up
      again with its own spelling, which is not there: KeyNotFoundException. */
  lemma AllowCaseMismatchScenario()
    ensures Parse(Mode(Allow), [], ["Key=a", "key=b"])
         == Outcome([Global([Entry("Key", "a")])], Some(PropertyKeyNotFound("key")))
  {
    var lines := ["Key=a", "key=b"];
    assert lines[1..] == ["key=b"];
    CaseFirstLine();
    RunOneLine(Mode(Allow), Start([]), lines, LoadState([Global([Entry("Key", "a")])], "global", 1, false, ""));
    CaseSecondLine();
    RunStops(Mode(Allow), LoadState([Global([Entry("Key", "a")])], "global", 1, false, ""), lines[1..],
             PropertyKeyNotFound("key"));
  }

  const Continuation: Settings := DefaultSettings.(allowLineContinuation := true)

  lemma LeakLines()
    ensures Continuation.allowLineContinuation
    ensures var h := "[S]"; h[|h| - 1] != '\\' && h[0] == '[' && h[|h| - 1] == ']' && h[1..|h| - 1] == "S"
    ensures forall i | 0 <= i < |"[S]"| :: "[S]"[i] !in Continuation.commentChars
    ensures var p := "k=v"; p[|p| - 1] != '\\' && forall i | 0 <= i < |p| :: p[i] !in Continuation.commentChars
    ensures "" + "[S]" == "[S]" && "[S]" + "k=v" == "[S]k=v"
    ensures PropertyShaped("[S]k=v")
  {
  }

  lemma LeakSplit()
    ensures SplitProperty("[S]k=v", '=') == Entry("[S]k", "v") && !IsBlank("[S]k")
  {
    assert "[S]k=v" == "[S]k" + ['='] + "v";
    SplitJoined("[S]k", "v", '=');
    assert "[S]k"[0] !in WhiteSpace;
  }

  lemma LeakHeaderAdded()
    ensures AddSection(LoadState([Global([])], "global", 1, false, ""), "[S]")
         == Success(LoadState([Global([]), Section(Some("S"), [])], "S", 1, false, "[S]"))
  {
    LeakLines();
    LengthsDiffer("global", "S");
    assert FindSectionIgnoringCase([Global([])], "S") == Miss;
    assert [Global([])] + [NewSection(Some("S"))] == [Global([]), Section(Some("S"), [])];
    SectionAdded(LoadState([Global([])], "global", 1, false, ""), "[S]");
  }

  lemma LeakFirstLine()
    ensures Step(Continuation, Start([]), "[S]")
         == Success(LoadState([Global([]), Section(Some("S"), [])], "S", 1, false, "[S]"))
  {
    var before := LoadState([Global([])], "global", 0, false, "");
    var st := LoadState([Global([])], "global", 1, false, "");
    StartOnNothing();
    LeakLines();
    CommentFreeLineIsKept(Continuation, "[S]");
    ContinuedLineIsCompleted(Continuation, before, "[S]", "[S]");
    assert before.(lineNumber := before.lineNumber + 1, lineContinue := false) == st;
    assert Step(Continuation, before, "[S]") == Complete(Continuation, st, "[S]");
    HeaderText(Continuation, st, "[S]");
    LeakHeaderAdded();
  }

  lemma LeakSecondLine()
    ensures Step(Continuation, LoadState([Global([]), Section(Some("S"), [])], "S", 1, false, "[S]"), "k=v")
         == Success(LoadState([Global([]), Section(Some("S"), [Entry("[S]k", "v")])], "S", 2, false, ""))
  {
    var before := LoadState([Global([]), Section(Some("S"), [])], "S", 1, false, "[S]");
    var st := LoadState([Global([]), Section(Some("S"), [])], "S", 2, false, "[S]");
    var none: seq<Entry> := [];
    assert none + [Entry("[S]k", "v")] == [Entry("[S]k", "v")];
    assert st.sections[1 := Section(Some("S"), none + [Entry("[S]k", "v")])]
        == [Global([]), Section(Some("S"), [Entry("[S]k", "v")])];
    assert "global" != "S";
    SectionAt(st.sections, "S", 1);
    assert KeyIndexIgnoringCase(none, "[S]k") == None;
    LeakLines();
    LeakSplit();
    CommentFreeLineIsKept(Continuation, "k=v");
    ContinuedLineIsCompleted(Continuation, before, "k=v", "k=v");
    assert before.(lineNumber := before.lineNumber + 1, lineContinue := false) == st;
    assert Step(Continuation, before, "k=v") == Complete(Continuation, st, "[S]k=v");
    PropertyText(Continuation, st, "[S]k=v");
    KeyAppended(Continuation, st, "[S]k=v", 1, Entry("[S]k", "v"));
  }

  /** With continuation on, currentLine is not cleared after a header, so the header's
      text is glued to the front of the next line: the key read is "[S]k". */
  lemma HeaderLeaksIntoNextLineScenario()
    ensures Parse(Continuation, [], ["[S]", "k=v"])
         == Outcome([Global([]), Section(Some("S"), [Entry("[S]k", "v")])], None)
  {
    var lines := ["[S]", "k=v"];
    assert lines[1..] == ["k=v"];
    LeakFirstLine();
    RunOneLine(Continuation, Start([]), lines, LoadState([Global([]), Section(Some("S"), [])], "S", 1, false, "[S]"));
    LeakSecondLine();
    RunOneLine(Continuation, LoadState([Global([]), Section(Some("S"), [])], "S", 1, false, "[S]"), lines[1..],
               LoadState([Global([]), Section(Some("S"), [Entry("[S]k", "v")])], "S", 2, false, ""));
  }

  lemma PairLine(opts: Settings)
    requires opts.delimiter == '=' && opts.commentChars == [';']
    ensures forall i | 0 <= i < |"k=v"| :: "k=v"[i] !in opts.commentChars
    ensures PropertyShaped("k=v") && "k=v"[|"k=v"| - 1] != '\\' && "" + "k=v" == "k=v"
    ensures SplitProperty("k=v", '=') == Entry("k", "v") && !IsBlank("k")
  {
    PairSplit();
  }

  lemma PairSplit()
    ensures SplitProperty("k=v", '=') == Entry("k", "v") && !IsBlank("k")
  {
    assert "k=v" == "k" + ['='] + "v";
    SplitJoined("k", "v", '=');
    assert "k"[0] !in WhiteSpace;
  }

  lemma EmptyLineFirstLine()
    ensures Step(Continuation, Start([]), "k=v") == Success(LoadState([Global([Entry("k", "v")])], "global", 1, false, ""))
  {
    FirstPairLineCompletes();
    FirstPairIsAdded();
  }

  lemma FirstPairLineCompletes()
    ensures Step(Continuation, Start([]), "k=v")
            == Complete(Continuation, LoadState([Global([])], "global", 1, false, ""), "k=v")
  {
    var before := LoadState([Global([])], "global", 0, false, "");
    StartOnNothing();
    PairLine(Continuation);
    CommentFreeLineIsKept(Continuation, "k=v");
    ContinuedLineIsCompleted(Continuation, before, "k=v", "k=v");
    assert before.(lineNumber := before.lineNumber + 1, lineContinue := false)
        == LoadState([Global([])], "global", 1, false, "");
  }

  lemma FirstPairIsAdded()
    ensures Complete(Continuation, LoadState([Global([])], "global", 1, false, ""), "k=v")
            == Success(LoadState([Global([Entry("k", "v")])], "global", 1, false, ""))
  {
    PairLine(Continuation);
    PropertyText(Continuation, LoadState([Global([])], "global", 1, false, ""), "k=v");
    FirstPairAdded(Continuation, "k=v", Entry("k", "v"));
  }

  /** With continuation on, an empty line raises IndexOutOfRangeException: the reader
      looks at its last character before checking its length. */
  lemma EmptyLineWithContinuationScenario()
    ensures Parse(Continuation, [], ["k=v", ""])
         == Outcome([Global([Entry("k", "v")])], Some(LineIndexOutOfRange(2)))
  {
    var lines := ["k=v", ""];
    var st := LoadState([Global([Entry("k", "v")])], "global", 1, false, "");
    assert lines[1..] == [""];
    EmptyLineFirstLine();
    RunOneLine(Continuation, Start([]), lines, st);
    assert StripComment(Continuation, "") == Some("");
    IndexOutOfRangeOnEmptyLine(Continuation, st, "");
    RunStops(Continuation, st, lines[1..], LineIndexOutOfRange(2));
  }

  /** A second Load on the same object appends another "global"; the indexer finds the
      first one, so the new pairs go there. */
  lemma SecondLoadScenario()
    ensures Parse(DefaultSettings, [Global([])], ["k=v"]) == Outcome([Global([Entry("k", "v")]), Global([])], None)
  {
    var before := LoadState([Global([]), Global([])], "global", 0, false, "");
    var st := LoadState([Global([]), Global([])], "global", 1, false, "");
    var none: seq<Entry> := [];
    assert Start([Global([])]) == before;
    assert none + [Entry("k", "v")] == [Entry("k", "v")];
    assert st.sections[0 := Section(Some("global"), none + [Entry("k", "v")])] == [Global([Entry("k", "v")]), Global([])];
    assert SectionIndex(st.sections, "global") == Some(0);
    assert KeyIndexIgnoringCase(none, "k") == None;
    PairLine(DefaultSettings);
    CommentFreeLineIsKept(DefaultSettings, "k=v");
    LineIsCompleted(DefaultSettings, before, "k=v", "k=v");
    assert Step(DefaultSettings, before, "k=v") == Complete(DefaultSettings, st, "k=v");
    PropertyText(DefaultSettings, st, "k=v");
    KeyAppended(DefaultSettings, st, "k=v", 0, Entry("k", "v"));
    RunOneLine(DefaultSettings, before, ["k=v"], LoadState([Global([Entry("k", "v")]), Global([])], "global", 1, false, ""));
  }
}
