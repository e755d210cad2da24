/**
 * What IniFile.Load promises for every input about the three duplicate-key policies,
 * blank keys, line continuation and section headers.
 */
module IniRules {
  import opened Wrappers
  import opened Text
  import opened DuplicatedKeyNameModes
  import opened IniSections
  import opened IniFiles

  // ---------------------------------------------------------------------------
  // Property lines under the duplicate policy (IniFile.cs lines 158-199)

  /** A key met for the first time is appended to the current section, under every
      policy; nothing else changes. */
  lemma NewKeyIsAppended(opts: Settings, st: LoadState, text: string, si: nat)
    requires !IsBlank(SplitProperty(text, opts.delimiter).key)
    requires SectionIndex(st.sections, st.currentSectionName) == Some(si)
    requires KeyIndexIgnoringCase(st.sections[si].properties, SplitProperty(text, opts.delimiter).key).None?
    ensures var item := SplitProperty(text, opts.delimiter);
            var props := st.sections[si].properties;
            AddProperty(opts, st, text)
              == Success(st.(sections := st.sections[si := st.sections[si].(properties := props + [item])],
                             currentLine := ""))
  {
  }

  /** A key already present ignoring case: Abort throws with the line number, Ignore
      drops the pair and changes no section, and Allow stores old + ";" + new under
      the key, or throws KeyNotFoundException when only the case differs. */
  lemma DuplicateKeyPolicy(opts: Settings, st: LoadState, text: string, si: nat)
    requires !IsBlank(SplitProperty(text, opts.delimiter).key)
    requires SectionIndex(st.sections, st.currentSectionName) == Some(si)
    requires KeyIndexIgnoringCase(st.sections[si].properties, SplitProperty(text, opts.delimiter).key).Some?
    ensures opts.mode == Abort ==> AddProperty(opts, st, text) == Failure(DuplicatedProperty(st.lineNumber))
    ensures opts.mode == Ignore ==>
              AddProperty(opts, st, text) == Success(st.(currentLine := ""))
    ensures var item := SplitProperty(text, opts.delimiter);
            opts.mode == Allow && KeyIndex(st.sections[si].properties, item.key).None? ==>
              AddProperty(opts, st, text) == Failure(PropertyKeyNotFound(item.key))
    ensures var item := SplitProperty(text, opts.delimiter);
            var props := st.sections[si].properties;
            var j := KeyIndex(props, item.key);
            opts.mode == Allow && j.Some? ==>
              AddProperty(opts, st, text)
                == Success(st.(sections := st.sections[si := st.sections[si].(properties :=
                                 props[j.value := Entry(item.key, props[j.value].value + ";" + item.value)])],
                               currentLine := ""))
  {
    if opts.mode == Ignore {
      assert st.sections[si := st.sections[si]] == st.sections;
    }
  }

  /** A blank key throws, whatever the policy and the sections. */
  lemma BlankKeyIsRejected(opts: Settings, st: LoadState, text: string)
    requires IsBlank(SplitProperty(text, opts.delimiter).key)
    ensures AddProperty(opts, st, text) == Failure(EmptyPropertyName(st.lineNumber))
  {
  }

  /** Without continuation, a raw line whose trimmed text is neither empty nor a header
      is read as a property at the counted line number: the number the policy's
      exceptions carry is that of the line. */
  lemma StepReadsProperty(opts: Settings, st: LoadState, next: LoadState, raw: string, line: string)
    requires next == st.(lineNumber := st.lineNumber + 1)
    requires !opts.allowLineContinuation && StripComment(opts, raw) == Some(line)
    requires var text := Trim(line); |text| > 0 && !(text[0] == '[' && text[|text| - 1] == ']')
    ensures Step(opts, st, raw) == AddProperty(opts, next, Trim(line))
  {
    StepJoins(opts, st, next, raw, line);
    CompleteReadsProperty(opts, next, line);
  }

  // ---------------------------------------------------------------------------
  // Line continuation (IniFile.cs lines 111-137)

  /** The held lines of a continued logical line, each right-trimmed of ' ' and '\',
      put together. */
  function Joined(held: seq<string>): string {
    if held == [] then "" else TrimEnd(held[0], ContinuationChars) + Joined(held[1..])
  }

  /** A line without comment characters that asks for continuation: it is read whole
      and ends in '\'. */
  predicate HeldLine(opts: Settings, line: string) {
    IndexOfAny(line, opts.commentChars) == -1 && |line| > 0 && line[|line| - 1] == '\\'
  }

  /** A raw line holding no comment character is kept whole. */
  lemma UncommentedLineIsKept(opts: Settings, raw: string)
    requires IndexOfAny(raw, opts.commentChars) == -1
    ensures StripComment(opts, raw) == Some(raw)
  {
  }

  /** With continuation on, lines l1 .. lk ending in '\' followed by a non-empty line m
      that does not, none of them holding a comment character, are one logical line: the run goes
      on as if Complete had read the held text, TrimEnd(l1) + ... + TrimEnd(lk), with m
      after it. The held text starts with the currentLine already held when the
      reader is in a continuation, or when there are no held lines at all (the header
      text a section line leaves behind is then kept); it starts empty otherwise. */
  lemma {:induction false} ContinuedLinesAreJoined(opts: Settings, st: LoadState, held: seq<string>, m: string,
                                                    rest: seq<string>)
    requires opts.allowLineContinuation
    requires forall i | 0 <= i < |held| :: HeldLine(opts, held[i])
    requires IndexOfAny(m, opts.commentChars) == -1 && |m| > 0 && m[|m| - 1] != '\\'
    ensures var text := (if st.lineContinue || held == [] then st.currentLine else "") + Joined(held);
            Run(opts, st, held + [m] + rest)
              == Continue(opts, st.sections,
                          Complete(opts, LoadState(st.sections, st.currentSectionName, st.lineNumber + |held| + 1,
                                                   false, text), text + m),
                          rest)
  {
    var text := (if st.lineContinue || held == [] then st.currentLine else "") + Joined(held);
    JoinsHeldLines(opts, st, held, m, rest, held + [m] + rest, text,
                   LoadState(st.sections, st.currentSectionName, st.lineNumber + |held| + 1, false, text));
  }

  /** ContinuedLinesAreJoined with the lines, the held text and the state Complete
      starts from given by name. */
  lemma {:induction false} JoinsHeldLines(opts: Settings, st: LoadState, held: seq<string>, m: string,
                                          rest: seq<string>, lines: seq<string>, text: string, done: LoadState)
    requires opts.allowLineContinuation
    requires forall i | 0 <= i < |held| :: HeldLine(opts, held[i])
    requires IndexOfAny(m, opts.commentChars) == -1 && |m| > 0 && m[|m| - 1] != '\\'
    requires lines == held + [m] + rest
    requires text == (if st.lineContinue || held == [] then st.currentLine else "") + Joined(held)
    requires done == LoadState(st.sections, st.currentSectionName, st.lineNumber + |held| + 1, false, text)
    ensures Run(opts, st, lines) == Continue(opts, st.sections, Complete(opts, done, text + m), rest)
    decreases |held|
  {
    if held == [] {
      assert lines == [m] + rest;
      RunCompletesLine(opts, st, done, m, rest);
    } else {
      var prefix := if st.lineContinue then st.currentLine else "";
      var st1 := LoadState(st.sections, st.currentSectionName, st.lineNumber + 1, true,
                           prefix + TrimEnd(held[0], ContinuationChars));
      var tail := held[1..] + [m] + rest;
      assert lines == [held[0]] + tail;
      RunHoldsLine(opts, st, st1, held[0], tail);
      HeldTail(opts, held, prefix, text);
      JoinsHeldLines(opts, st1, held[1..], m, rest, tail, text, done);
    }
  }

  /** Joining the first held line leaves the others, still all held lines, to join. */
  lemma HeldTail(opts: Settings, held: seq<string>, prefix: string, text: string)
    requires held != [] && forall i | 0 <= i < |held| :: HeldLine(opts, held[i])
    requires text == prefix + Joined(held)
    ensures forall i | 0 <= i < |held[1..]| :: HeldLine(opts, held[1..][i])
    ensures (prefix + TrimEnd(held[0], ContinuationChars)) + Joined(held[1..]) == text
  {
    forall i | 0 <= i < |held[1..]|
      ensures HeldLine(opts, held[1..][i])
    {
      assert held[1..][i] == held[i + 1];
    }
  }

  /** A line ending in '\' is held: counted, and its trimmed text added to what is held. */
  lemma RunHoldsLine(opts: Settings, st: LoadState, st1: LoadState, l: string, tail: seq<string>)
    requires opts.allowLineContinuation && HeldLine(opts, l)
    requires st1 == LoadState(st.sections, st.currentSectionName, st.lineNumber + 1, true,
                              (if st.lineContinue then st.currentLine else "") + TrimEnd(l, ContinuationChars))
    ensures Run(opts, st, [l] + tail) == Run(opts, st1, tail)
  {
    var next := st.(lineNumber := st.lineNumber + 1);
    RunReadsFirstLine(opts, st, [l] + tail);
    assert ([l] + tail)[0] == l && ([l] + tail)[1..] == tail;
    UncommentedLineIsKept(opts, l);
    StepJoins(opts, st, next, l, l);
  }

  /** A non-empty line not ending in '\' completes the logical line held so far. */
  lemma RunCompletesLine(opts: Settings, st: LoadState, done: LoadState, m: string, rest: seq<string>)
    requires opts.allowLineContinuation
    requires IndexOfAny(m, opts.commentChars) == -1 && |m| > 0 && m[|m| - 1] != '\\'
    requires done == LoadState(st.sections, st.currentSectionName, st.lineNumber + 1, false, st.currentLine)
    ensures Run(opts, st, [m] + rest) == Continue(opts, st.sections, Complete(opts, done, st.currentLine + m), rest)
  {
    var next := st.(lineNumber := st.lineNumber + 1);
    RunReadsFirstLine(opts, st, [m] + rest);
    assert ([m] + rest)[0] == m && ([m] + rest)[1..] == rest;
    UncommentedLineIsKept(opts, m);
    StepJoins(opts, st, next, m, m);
  }

  // ---------------------------------------------------------------------------
  // Section headers (IniFile.cs lines 142-156)

  /** A completed line that trims to "[name]" opens exactly one section: on success the
      sections gain NewSection(name) at the end and it becomes current; the header
      fails exactly when a section of that name exists ignoring case, or a null name
      is met first. */
  lemma HeaderAddsOneSection(opts: Settings, st: LoadState, line: string)
    requires var text := Trim(line); |text| >= 2 && text[0] == '[' && text[|text| - 1] == ']'
    ensures var text := Trim(line);
            var name := text[1..|text| - 1];
            var r := Complete(opts, st, line);
            (r.Success? <==> FindSectionIgnoringCase(st.sections, name).Miss?) &&
            (r.Success? ==> r.value.sections == st.sections + [NewSection(Some(name))]
                            && r.value.currentSectionName == name)
  {
  }

  /** One loop pass adds at most one section, and a section it adds is a new empty
      one at the end that becomes current. */
  lemma StepAddsAtMostOneSection(opts: Settings, st: LoadState, raw: string)
    ensures var r := Step(opts, st, raw);
            r.Success? ==>
              (|r.value.sections| == |st.sections| ||
               r.value.sections == st.sections + [NewSection(Some(r.value.currentSectionName))])
  {
    var next := st.(lineNumber := st.lineNumber + 1);
    match StripComment(opts, raw)
    case None =>
      StepSkips(opts, st, next, raw);
    case Some(line) =>
      StepJoins(opts, st, next, raw, line);
      if opts.allowLineContinuation {
        if |line| > 0 && line[|line| - 1] != '\\' {
          CompleteAddsAtMostOneSection(opts, next.(lineContinue := false), next.currentLine + line);
        }
      } else {
        CompleteAddsAtMostOneSection(opts, next, line);
      }
  }

  lemma CompleteAddsAtMostOneSection(opts: Settings, st: LoadState, line: string)
    ensures var r := Complete(opts, st, line);
            r.Success? ==>
              (|r.value.sections| == |st.sections| ||
               r.value.sections == st.sections + [NewSection(Some(r.value.currentSectionName))])
  {
    var text := Trim(line);
    if |text| > 0 && !(text[0] == '[' && text[|text| - 1] == ']') {
      CompleteReadsProperty(opts, st, line);
      AddPropertyKeepsCount(opts, st, text);
    }
  }

  /** A property line never adds or removes a section. */
  lemma AddPropertyKeepsCount(opts: Settings, st: LoadState, text: string)
    ensures var r := AddProperty(opts, st, text);
            r.Success? ==> |r.value.sections| == |st.sections|
  {
  }
}
