/**
 * What Load promises about the sections it leaves behind, proved on the functional
 * reader `Parse` (which `IniFile.Load` is proved to compute): nothing that was read
 * is taken away, new section names are unique ignoring case, keys stay unique
 * ignoring case and never blank, and the duplicate policies behave as documented.
 */
module IniProperties {
  import opened Wrappers
  import opened Text
  import opened DuplicatedKeyNameModes
  import opened IniSections
  import opened IniFiles

  // ---------------------------------------------------------------------------
  // Nothing read is lost

  /** How one section's entries may change under `mode`: Ignore and Abort only append;
      Allow may also extend a stored value in place, keeping its key. */
  predicate EntriesGrow(mode: DuplicatedKeyNameMode, a: seq<Entry>, b: seq<Entry>) {
    |a| <= |b| &&
    forall k | 0 <= k < |a| ::
      if mode == Allow then b[k].key == a[k].key && a[k].value <= b[k].value else b[k] == a[k]
  }

  /** Sections are only appended; the existing ones keep their names and their
      entries grow as EntriesGrow allows. */
  predicate SectionsGrow(mode: DuplicatedKeyNameMode, a: seq<Section>, b: seq<Section>) {
    |a| <= |b| &&
    forall i | 0 <= i < |a| :: b[i].name == a[i].name && EntriesGrow(mode, a[i].properties, b[i].properties)
  }

  lemma SectionsGrowTransitive(mode: DuplicatedKeyNameMode, a: seq<Section>, b: seq<Section>, c: seq<Section>)
    requires SectionsGrow(mode, a, b) && SectionsGrow(mode, b, c)
    ensures SectionsGrow(mode, a, c)
  {
    forall i | 0 <= i < |a|
      ensures c[i].name == a[i].name && EntriesGrow(mode, a[i].properties, c[i].properties)
    {
      var x, y, z := a[i].properties, b[i].properties, c[i].properties;
      assert EntriesGrow(mode, x, y) && EntriesGrow(mode, y, z);
      forall k | 0 <= k < |x|
        ensures if mode == Allow then z[k].key == x[k].key && x[k].value <= z[k].value else z[k] == x[k]
      {
        if mode == Allow {
          assert x[k].value <= y[k].value <= z[k].value;
        }
      }
    }
  }

  /** Merge only appends, or (Allow) extends the value of an entry with the same key. */
  lemma MergeGrows(mode: DuplicatedKeyNameMode, props: seq<Entry>, item: Entry, lineNumber: int)
    ensures var r := Merge(mode, props, item, lineNumber);
            r.Success? ==> EntriesGrow(mode, props, r.value)
  {
    if KeyIndexIgnoringCase(props, item.key).Some? && mode == Allow {
      var j := KeyIndex(props, item.key);
      if j.Some? {
        var v := props[j.value].value;
        assert v <= v + ";" + item.value;
      }
    }
  }

  lemma AddPropertyGrows(opts: Settings, st: LoadState, text: string)
    ensures var r := AddProperty(opts, st, text);
            r.Success? ==> SectionsGrow(opts.mode, st.sections, r.value.sections)
  {
    var item := SplitProperty(text, opts.delimiter);
    var i := SectionIndex(st.sections, st.currentSectionName);
    if !IsBlank(item.key) && i.Some? {
      MergeGrows(opts.mode, st.sections[i.value].properties, item, st.lineNumber);
    }
  }

  lemma SectionsGrowByAppend(mode: DuplicatedKeyNameMode, a: seq<Section>, s: Section)
    ensures SectionsGrow(mode, a, a + [s])
  {
    forall i | 0 <= i < |a|
      ensures EntriesGrow(mode, a[i].properties, (a + [s])[i].properties)
    {
      assert (a + [s])[i] == a[i];
    }
  }

  lemma SectionsGrowReflexive(mode: DuplicatedKeyNameMode, a: seq<Section>)
    ensures SectionsGrow(mode, a, a)
  {
  }

  lemma AddSectionGrows(mode: DuplicatedKeyNameMode, st: LoadState, text: string)
    requires 2 <= |text|
    ensures var r := AddSection(st, text);
            r.Success? ==> SectionsGrow(mode, st.sections, r.value.sections)
  {
    SectionsGrowByAppend(mode, st.sections, NewSection(Some(text[1..|text| - 1])));
  }

  lemma CompleteGrows(opts: Settings, st: LoadState, line: string)
    ensures var r := Complete(opts, st, line);
            r.Success? ==> SectionsGrow(opts.mode, st.sections, r.value.sections)
  {
    var text := Trim(line);
    if |text| == 0 {
      SectionsGrowReflexive(opts.mode, st.sections);
    } else if text[0] == '[' && text[|text| - 1] == ']' {
      assert Complete(opts, st, line) == AddSection(st, text);
      AddSectionGrows(opts.mode, st, text);
    } else {
      assert Complete(opts, st, line) == AddProperty(opts, st, text);
      AddPropertyGrows(opts, st, text);
    }
  }

  lemma JoinGrows(opts: Settings, st: LoadState, line: string)
    ensures var r := Join(opts, st, line);
            r.Success? ==> SectionsGrow(opts.mode, st.sections, r.value.sections)
  {
    if opts.allowLineContinuation {
      if |line| > 0 && line[|line| - 1] != '\\' {
        CompleteGrows(opts, st.(lineContinue := false), st.currentLine + line);
      } else {
        SectionsGrowReflexive(opts.mode, st.sections);
      }
    } else {
      CompleteGrows(opts, st, line);
    }
  }

  lemma StepGrows(opts: Settings, st: LoadState, raw: string)
    ensures var r := Step(opts, st, raw);
            r.Success? ==> SectionsGrow(opts.mode, st.sections, r.value.sections)
  {
    var counted := st.(lineNumber := st.lineNumber + 1);
    match StripComment(opts, raw)
    case None =>
      StepSkips(opts, st, counted, raw);
      SectionsGrowReflexive(opts.mode, st.sections);
    case Some(line) =>
      StepJoins(opts, st, counted, raw, line);
      JoinGrows(opts, counted, line);
  }

  /** Load never removes or renames a section, and never drops or rekeys an entry:
      what was there before is still there, values extended at most under Allow. */
  lemma {:induction false} RunGrows(opts: Settings, st: LoadState, lines: seq<string>)
    ensures SectionsGrow(opts.mode, st.sections, Run(opts, st, lines).sections)
    decreases |lines|
  {
    if lines != [] {
      StepGrows(opts, st, lines[0]);
      var r := Step(opts, st, lines[0]);
      if r.Success? {
        RunGrows(opts, r.value, lines[1..]);
        SectionsGrowTransitive(opts.mode, st.sections, r.value.sections, Run(opts, r.value, lines[1..]).sections);
      }
    }
  }

  /** Load appends a "global" section after the existing ones, and keeps all of them. */
  lemma ParseKeepsSections(opts: Settings, sections: seq<Section>, lines: seq<string>)
    ensures var out := Parse(opts, sections, lines).sections;
            |sections| < |out| && out[|sections|].name == Some("global") &&
            SectionsGrow(opts.mode, sections, out)
  {
    var start := Start(sections);
    RunGrows(opts, start, lines);
    var out := Parse(opts, sections, lines).sections;
    assert SectionsGrow(opts.mode, start.sections, out);
    assert start.sections[|sections|].name == Some("global");
  }

  // ---------------------------------------------------------------------------
  // Keys and section names stay unique

  /** Keys are unique ignoring case and none is blank. */
  predicate KeysWellFormed(entries: seq<Entry>) {
    DistinctKeysIgnoringCase(entries) && forall i | 0 <= i < |entries| :: !IsBlank(entries[i].key)
  }

  /** Every section from index k on is named, and its name differs ignoring case from
      the names of all sections before it, which are named too. */
  predicate NamedApart(sections: seq<Section>, k: nat) {
    forall i, j | k <= i < |sections| && 0 <= j < i ::
      sections[j].name.Some? && sections[i].name.Some? &&
      !EqualsIgnoringCase(sections[j].name.value, sections[i].name.value)
  }

  /** The shape the reader keeps: well-formed keys everywhere, and the sections from
      index k on named apart. */
  predicate WellFormed(sections: seq<Section>, k: nat) {
    (forall i | 0 <= i < |sections| :: KeysWellFormed(sections[i].properties)) && NamedApart(sections, k)
  }

  lemma MergeKeepsKeys(mode: DuplicatedKeyNameMode, props: seq<Entry>, item: Entry, lineNumber: int)
    requires KeysWellFormed(props) && !IsBlank(item.key)
    ensures var r := Merge(mode, props, item, lineNumber);
            r.Success? ==> KeysWellFormed(r.value)
  {
    if KeyIndexIgnoringCase(props, item.key).None? {
      var r := props + [item];
      forall i, j | 0 <= i < j < |r| ensures !EqualsIgnoringCase(r[i].key, r[j].key) {
        if j == |props| {
          assert r[i] == props[i] && r[j] == item;
        } else {
          assert r[i] == props[i] && r[j] == props[j];
        }
      }
    } else if mode == Allow {
      var j := KeyIndex(props, item.key);
      if j.Some? {
        var r := props[j.value := Entry(item.key, props[j.value].value + ";" + item.value)];
        assert forall i | 0 <= i < |r| :: r[i].key == props[i].key;
      }
    }
  }

  lemma AddPropertyKeepsShape(opts: Settings, st: LoadState, text: string, k: nat)
    requires WellFormed(st.sections, k)
    ensures var r := AddProperty(opts, st, text);
            r.Success? ==> WellFormed(r.value.sections, k)
  {
    var item := SplitProperty(text, opts.delimiter);
    var i := SectionIndex(st.sections, st.currentSectionName);
    if !IsBlank(item.key) && i.Some? {
      var props := st.sections[i.value].properties;
      MergeKeepsKeys(opts.mode, props, item, st.lineNumber);
      var r := Merge(opts.mode, props, item, st.lineNumber);
      if r.Success? {
        var out := st.sections[i.value := st.sections[i.value].(properties := r.value)];
        forall a, b | k <= a < |out| && 0 <= b < a
          ensures out[b].name.Some? && out[a].name.Some? && !EqualsIgnoringCase(out[b].name.value, out[a].name.value)
        {
          assert out[a].name == st.sections[a].name && out[b].name == st.sections[b].name;
        }
      }
    }
  }

  lemma AddSectionKeepsShape(st: LoadState, text: string, k: nat)
    requires 2 <= |text| && WellFormed(st.sections, k) && k <= |st.sections|
    ensures var r := AddSection(st, text);
            r.Success? ==> WellFormed(r.value.sections, k)
  {
    var name := text[1..|text| - 1];
    if FindSectionIgnoringCase(st.sections, name).Miss? {
      var out := st.sections + [NewSection(Some(name))];
      forall i, j | k <= i < |out| && 0 <= j < i
        ensures out[j].name.Some? && out[i].name.Some? && !EqualsIgnoringCase(out[j].name.value, out[i].name.value)
      {
        assert out[j] == st.sections[j];
        if i < |st.sections| {
          assert out[i] == st.sections[i];
        }
      }
      assert forall m | 0 <= m < |st.sections| :: out[m] == st.sections[m];
    }
  }

  lemma CompleteKeepsShape(opts: Settings, st: LoadState, line: string, k: nat)
    requires WellFormed(st.sections, k) && k <= |st.sections|
    ensures var r := Complete(opts, st, line);
            r.Success? ==> WellFormed(r.value.sections, k)
  {
    var text := Trim(line);
    if |text| == 0 {
    } else if text[0] == '[' && text[|text| - 1] == ']' {
      assert Complete(opts, st, line) == AddSection(st, text);
      AddSectionKeepsShape(st, text, k);
    } else {
      assert Complete(opts, st, line) == AddProperty(opts, st, text);
      AddPropertyKeepsShape(opts, st, text, k);
    }
  }

  lemma JoinKeepsShape(opts: Settings, st: LoadState, line: string, k: nat)
    requires WellFormed(st.sections, k) && k <= |st.sections|
    ensures var r := Join(opts, st, line);
            r.Success? ==> WellFormed(r.value.sections, k)
  {
    if opts.allowLineContinuation {
      if |line| > 0 && line[|line| - 1] != '\\' {
        CompleteKeepsShape(opts, st.(lineContinue := false), st.currentLine + line, k);
      }
    } else {
      CompleteKeepsShape(opts, st, line, k);
    }
  }

  lemma StepKeepsShape(opts: Settings, st: LoadState, raw: string, k: nat)
    requires WellFormed(st.sections, k) && k <= |st.sections|
    ensures var r := Step(opts, st, raw);
            r.Success? ==> WellFormed(r.value.sections, k)
  {
    var counted := st.(lineNumber := st.lineNumber + 1);
    match StripComment(opts, raw)
    case None =>
      StepSkips(opts, st, counted, raw);
    case Some(line) =>
      StepJoins(opts, st, counted, raw, line);
      JoinKeepsShape(opts, counted, line, k);
  }

  lemma {:induction false} RunKeepsShape(opts: Settings, st: LoadState, lines: seq<string>, k: nat)
    requires WellFormed(st.sections, k) && k <= |st.sections|
    ensures WellFormed(Run(opts, st, lines).sections, k)
    decreases |lines|
  {
    if lines != [] {
      StepKeepsShape(opts, st, lines[0], k);
      StepGrows(opts, st, lines[0]);
      var r := Step(opts, st, lines[0]);
      if r.Success? {
        RunKeepsShape(opts, r.value, lines[1..], k);
        assert Run(opts, st, lines) == Run(opts, r.value, lines[1..]);
      }
    }
  }

  /** When the existing sections hold well-formed keys, so does every section after
      Load, and each section the input opens has a name no earlier section has,
      ignoring case. The "global" section itself is appended without that check. */
  lemma ParseKeepsShape(opts: Settings, sections: seq<Section>, lines: seq<string>)
    requires forall i | 0 <= i < |sections| :: KeysWellFormed(sections[i].properties)
    ensures WellFormed(Parse(opts, sections, lines).sections, |sections| + 1)
  {
    var start := Start(sections);
    assert forall i | 0 <= i < |start.sections| :: KeysWellFormed(start.sections[i].properties) by {
      forall i | 0 <= i < |start.sections| ensures KeysWellFormed(start.sections[i].properties) {
        if i < |sections| {
          assert start.sections[i] == sections[i];
        }
      }
    }
    RunKeepsShape(opts, start, lines, |sections| + 1);
  }

  /** Keys unique ignoring case are unique; so each section's indexer finds exactly the
      entry stored under a key. */
  lemma ParsedKeysAreFound(opts: Settings, sections: seq<Section>, lines: seq<string>, i: nat, key: string,
                           v: string)
    requires forall m | 0 <= m < |sections| :: KeysWellFormed(sections[m].properties)
    requires i < |Parse(opts, sections, lines).sections|
    ensures var s := Parse(opts, sections, lines).sections[i];
            s.Get(key) == Some(v) <==> Entry(key, v) in s.properties
  {
    ParseKeepsShape(opts, sections, lines);
    var s := Parse(opts, sections, lines).sections[i];
    assert KeysWellFormed(s.properties);
    forall a, b | 0 <= a < b < |s.properties| ensures s.properties[a].key != s.properties[b].key {
      assert !EqualsIgnoringCase(s.properties[a].key, s.properties[b].key);
    }
    GetFindsTheEntry(s, key, v);
  }

  // ---------------------------------------------------------------------------
  // Comments, headers and property lines

  /** A raw line whose first character is a comment character is skipped whatever it
      holds; only the line counter moves. */
  lemma CommentLineIsSkipped(opts: Settings, st: LoadState, raw: string)
    requires |raw| > 0 && raw[0] in opts.commentChars
    ensures Step(opts, st, raw) == Success(st.(lineNumber := st.lineNumber + 1))
  {
    assert IndexOfAny(raw, opts.commentChars) == 0;
  }

  /** Input made only of comment lines leaves just the appended "global" section. */
  lemma {:induction false} RunSkipsCommentLines(opts: Settings, st: LoadState, lines: seq<string>)
    requires forall i | 0 <= i < |lines| :: |lines[i]| > 0 && lines[i][0] in opts.commentChars
    ensures Run(opts, st, lines) == Outcome(st.sections, None)
    decreases |lines|
  {
    if lines != [] {
      CommentLineIsSkipped(opts, st, lines[0]);
      RunSkipsCommentLines(opts, st.(lineNumber := st.lineNumber + 1), lines[1..]);
    }
  }

  lemma ParseOfCommentsIsEmpty(opts: Settings, sections: seq<Section>, lines: seq<string>)
    requires forall i | 0 <= i < |lines| :: |lines[i]| > 0 && lines[i][0] in opts.commentChars
    ensures Parse(opts, sections, lines) == Outcome(sections + [Section(Some("global"), [])], None)
  {
    RunSkipsCommentLines(opts, Start(sections), lines);
  }

  /** Lines 93-109 in full. A comment character at position 0 skips the line, and a
      line without one is kept whole. With inline comments on, a line whose first
      comment character is at index > 0 keeps a prefix p of the text before it: what
      p leaves out of that text is white space, and p does not end in white space.
      A '\\' is put after p exactly when continuation is on and the raw line ends in
      one. Without inline comments the line is kept whole. */
  lemma InlineCommentIsCut(opts: Settings, raw: string)
    ensures var index := IndexOfAny(raw, opts.commentChars);
            StripComment(opts, raw).None? <==> index == 0
    ensures var index := IndexOfAny(raw, opts.commentChars);
            (index < 0 || (index > 0 && !opts.allowInlineComment)) ==> StripComment(opts, raw) == Some(raw)
    ensures var index := IndexOfAny(raw, opts.commentChars);
            opts.allowInlineComment && index > 0 ==>
              var r := StripComment(opts, raw).value;
              var marker := if opts.allowLineContinuation && raw[|raw| - 1] == '\\' then "\\" else "";
              |marker| <= |r| &&
              var p := r[..|r| - |marker|];
              r == p + marker && p <= raw[..index] &&
              (forall i | |p| <= i < index :: raw[i] in WhiteSpace) &&
              (p == [] || p[|p| - 1] !in WhiteSpace) &&
              (forall i | 0 <= i < |p| :: p[i] !in opts.commentChars)
  {
    var index := IndexOfAny(raw, opts.commentChars);
    if opts.allowInlineComment && index > 0 {
      var cut := TrimEnd(raw[..index], WhiteSpace);
      var marker := if opts.allowLineContinuation && raw[|raw| - 1] == '\\' then "\\" else "";
      var r := if marker == "" then cut else cut + marker;
      assert StripComment(opts, raw) == Some(r);
      assert r[..|r| - |marker|] == cut && r == cut + marker;
      assert forall i | 0 <= i < |cut| :: cut[i] == raw[i];
    }
  }

  /** A property line is cut at its first delimiter: the key holds no delimiter, and key,
      delimiter and value put back together give the line. Without a delimiter the
      whole line is both key and value. */
  lemma SplitPropertyRoundTrip(text: string, delimiter: char)
    ensures var e := SplitProperty(text, delimiter);
            delimiter in text ==> e.key + [delimiter] + e.value == text && delimiter !in e.key
    ensures var e := SplitProperty(text, delimiter);
            delimiter !in text ==> e == Entry(text, text)
  {
    var index := IndexOf(text, delimiter);
    if delimiter in text {
      var k :| 0 <= k < |text| && text[k] == delimiter;
      assert index >= 0;
      assert text[..index] + [delimiter] + text[index + 1..] == text;
    }
  }

  /** A header naming a section that exists already, ignoring case, is an error once
      the line is complete; so is any header while a section has no name. */
  lemma DuplicateHeaderIsRejected(opts: Settings, st: LoadState, text: string, j: nat)
    requires 2 <= |text| && Trim(text) == text && text[0] == '[' && text[|text| - 1] == ']'
    requires j < |st.sections| && st.sections[j].name.Some?
    requires EqualsIgnoringCase(st.sections[j].name.value, text[1..|text| - 1])
    ensures Complete(opts, st, text).Failure?
    ensures Complete(opts, st, text) == Failure(DuplicateSection(text[1..|text| - 1]))
            || Complete(opts, st, text) == Failure(NullSectionName)
  {
    assert Complete(opts, st, text) == AddSection(st, text);
  }

  // ---------------------------------------------------------------------------
  // Empty lines under line continuation

  /** Reading a completed logical line never indexes past its end. */
  lemma CompleteNeverIndexesOut(opts: Settings, st: LoadState, currentLine: string)
    ensures var r := Complete(opts, st, currentLine); r.Failure? ==> !r.error.LineIndexOutOfRange?
  {
    var text := Trim(currentLine);
    if |text| > 0 && !(text[0] == '[' && text[|text| - 1] == ']') {
      AddPropertyNeverIndexesOut(opts, st, text);
    }
  }

  lemma AddPropertyNeverIndexesOut(opts: Settings, st: LoadState, text: string)
    ensures var r := AddProperty(opts, st, text); r.Failure? ==> !r.error.LineIndexOutOfRange?
  {
    var item := SplitProperty(text, opts.delimiter);
    match SectionIndex(st.sections, st.currentSectionName)
    case None =>
    case Some(si) =>
      var m := Merge(opts.mode, st.sections[si].properties, item, st.lineNumber);
      assert m.Failure? ==> !m.error.LineIndexOutOfRange?;
  }

  /** The reader reads the last character of every line once continuation is on, so a
      line that is empty after its comment is cut off raises IndexOutOfRangeException;
      nothing else does. */
  lemma IndexOutOfRangeOnEmptyLine(opts: Settings, st: LoadState, raw: string)
    ensures var r := Step(opts, st, raw);
            (r.Failure? && r.error.LineIndexOutOfRange?)
            <==> opts.allowLineContinuation && StripComment(opts, raw) == Some("")
    ensures var r := Step(opts, st, raw);
            r.Failure? && r.error.LineIndexOutOfRange? ==> r.error.lineNumber == st.lineNumber + 1
  {
    var next := st.(lineNumber := st.lineNumber + 1);
    match StripComment(opts, raw)
    case None =>
    case Some(line) =>
      StepJoins(opts, st, next, raw, line);
      if opts.allowLineContinuation {
        if |line| > 0 && line[|line| - 1] != '\\' {
          CompleteNeverIndexesOut(opts, next.(lineContinue := false), next.currentLine + line);
        }
      } else {
        CompleteNeverIndexesOut(opts, next, line);
      }
  }

  /** With inline comments on, a line whose text before the comment is blank, and which
      does not end in '\', is left empty: with continuation on it then fails. */
  lemma BlankBeforeInlineComment(opts: Settings, raw: string)
    requires opts.allowInlineComment
    requires var index := IndexOfAny(raw, opts.commentChars); index > 0 && IsBlank(raw[..index])
    requires !(opts.allowLineContinuation && raw[|raw| - 1] == '\\')
    ensures StripComment(opts, raw) == Some("")
  {
    var index := IndexOfAny(raw, opts.commentChars);
    TrimEndAt(raw[..index], WhiteSpace, 0);
  }
}
