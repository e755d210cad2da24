# INI reader and software rasterizer, modelled in Dafny

This project models two small C# components and proves properties of them.

**IniUtil** reads INI text into an ordered list of sections. Each section has a
name and a dictionary of properties. The model covers:

- the `IniFile` reader's main loop (`Load`);
- its handling of comment characters, inline comments and line continuation;
- section headers, and `name=value` properties;
- the three policies for a repeated key (Ignore, Abort, Allow);
- the section indexer and `Find`;
- `IniSection`'s key indexer.

The reader is modelled twice, and the two are proved equal:

- Pure functions give the line-by-line meaning. `Step` handles one raw line, `Run` folds `Step` over the lines, and `Parse` starts `Run` from a fresh `global` section.
- The `IniFile` class keeps the same local state as the C# loop (`currentSectionName`, `lineNumber`, `lineContinue`, `currentLine`). Its `Load` method is proved to end with exactly the sections and the exception that `Parse` gives.

Lemmas about `Parse` cover several properties:

- sections are only ever appended;
- keys stay unique ignoring case, and section names stay apart;
- comment lines are skipped;
- the property split round-trips;
- the error cases.

Module `IniRules` states, for every input, what each duplicate policy does to a repeated key, that a blank key is rejected, how continued lines are joined, and that a header adds exactly one section.

The unit tests of the repository are restated as lemmas. Each one pins `Parse` on the test's input.

**SoftwareEngine3D** is a scan-line triangle rasterizer. It writes into a BGRA back
buffer of `width*height*4` bytes and a depth buffer of `width*height` cells.
Module `Raster` states, as functions on values, what each drawing step does to the
two buffers:

- writing a pixel, with and without the depth test;
- drawing a clipped point;
- a scan line;
- a whole triangle.

It proves which pixels each step can change: only those in the rows and columns
the step covers, with depths in the range its corners span. Two `Device`
classes are proved against those functions:

- the sequential one of `SoftEngine.cs`;
- the lock-per-pixel one of `Device.cs`.

Each one's `Clear`, `Present`, `PutPixel`, `DrawPoint`, `ProcessScanLine` and
`DrawTriangle` are imperative methods over arrays. The loop invariants relate the arrays to those functions.

`Texture.Map` is modelled as a function on an immutable texture value.

Coordinates and depths are `real`, an idealisation of `float`. A C# `(int)` cast is
`Raster.Trunc` (truncation toward zero). C#'s `%` is `Textures.CRem` (the remainder takes the
dividend's sign). Every division is guarded the way the source guards it, and
Dafny checks that no divisor is zero. The per-pixel gradient `(x - sx)/(ex - sx)`
is only computed when `sx <= x < ex`.

Two points where the code's behaviour is narrower than its own comments suggest:

- **Texture wrapping.** The comment at `Texture.cs:56` says the `%` operator cycles, or repeats, the texture. The code takes `|(int)(t*w) % w|`. This repeats for non-negative `t` but mirrors negative `t` (`Textures.WrapMirrors`). It also reads past the buffer when the decoded image is smaller than the declared size (`Textures.SmallerImageReadsOutOfRange`).
- **Lock index.** The depth-tested `PutPixel` at `Device.cs:127-130` locks `lockBuffer[x + y*w]`, one lock per pixel index. The 3-argument `PutPixel` at `Device.cs:111-113` locks by byte index instead (see Findings).

## Model

| member | source | states |
|---|---|---|
| Text.TrimEnd | IniUtil/IniUtil/IniFile.cs:117 | `TrimEnd(chars)` gives a prefix of the string. The prefix is empty or ends in a character not in `chars`, and every character dropped is in `chars` |
| Text.TrimStart | IniUtil/IniUtil/IniFile.cs:137 | The result is a suffix of the string. It is empty or starts with a character not in `chars`, and every character dropped is in `chars` |
| Text.IndexOfAny | IniUtil/IniUtil/IniFile.cs:93 | `IndexOfAny` is -1 or a position holding one of the characters, and no earlier position holds one |
| Text.TrimIsEmptyWhenBlank | IniUtil/IniUtil/IniFile.cs:137-140 | A trimmed line is empty exactly when the line is all white space, so the empty-line skip and `IsNullOrWhiteSpace` agree |
| Text.TrimKeepsTrimmed | IniUtil/IniUtil/IniFile.cs:137 | A string with no white space at either end is its own `Trim()` |
| IniSections.NewSection | IniUtil/IniUtil/IniSection.cs:8-12 | A new section has the given name and no properties |
| IniSections.Section.Get | IniUtil/IniUtil/IniSection.cs:18-26 | The key indexer gives a value exactly when some entry has that key, compared with case. The value is one stored under that key |
| IniSections.KeyIndex | IniUtil/IniUtil/IniSection.cs:22-25 | The first entry whose key equals the given key exactly; none before it matches; None when no entry matches |
| IniSections.KeyIndexIgnoringCase | IniUtil/IniUtil/IniFile.cs:177-179 | The first entry whose key upper-cases to the same string. No earlier one does, and None means no entry does |
| IniSections.GetFindsTheEntry | IniUtil/IniUtil/IniSection.cs:18-26 | With distinct keys, the indexer returns `v` for `key` exactly when `(key, v)` is a stored entry |
| IniFiles.SectionIndex | IniUtil/IniUtil/IniFile.cs:36-38 | The position of the first section named exactly `name`, with no earlier section so named; None when no section has the name |
| IniFiles.FindSectionIgnoringCase | IniUtil/IniUtil/IniFile.cs:146-148 | The duplicate-section scan. A hit's name equals the header ignoring case, and all sections before it are named and differ. A miss means all sections are named and differ. A null name met first is reported as such |
| IniFiles.RunSkipsLine | IniUtil/IniUtil/IniFile.cs:88-94 | A line that starts with a comment character only advances the line counter |
| IniFiles.RunJoinsLine | IniUtil/IniUtil/IniFile.cs:88-137 | Any other line is counted, stripped of its comment and handed to the continuation logic, whose result ends the loop or continues it |
| IniFiles.CompleteReadsProperty | IniUtil/IniUtil/IniFile.cs:137-158 | A completed line that is neither blank nor `[...]` is read as a property |
| IniFiles.IniFile.constructor | IniUtil/IniUtil/IniFile.cs:10-18 | A new reader has no sections, and the settings `'='`, `[';']`, Ignore, no inline comments, no continuation |
| IniFiles.IniFile.Item | IniUtil/IniUtil/IniFile.cs:32-40 | `this[name]` succeeds exactly when some section has that name. It returns the first such section; otherwise `InvalidOperationException` (SectionNotFound) |
| IniFiles.IniFile.Find | IniUtil/IniUtil/IniFile.cs:42-47 | `Find` is non-null exactly when some section has the name, and then agrees with the indexer |
| IniFiles.IniFile.StripLineComment | IniUtil/IniUtil/IniFile.cs:92-109 | The comment handling of the loop computes `StripComment`. A leading comment character skips the line. An inline comment is cut and the text before it right-trimmed, and a trailing `\` is put back when continuation is on |
| IniFiles.IniFile.JoinLine | IniUtil/IniUtil/IniFile.cs:111-201 | The continuation handling and the reading of the completed line compute `Join`. On failure, no section changes |
| IniFiles.IniFile.ReadLogicalLine | IniUtil/IniUtil/IniFile.cs:137-201 | Trimming and reading a completed line computes `Complete`. On failure, no section changes |
| IniFiles.IniFile.ReadHeader | IniUtil/IniUtil/IniFile.cs:142-156 | A header computes `AddSection`. A new name appends a section and becomes current. A name taken ignoring case raises `InvalidDataException`, and an unnamed section raises `NullReferenceException` |
| IniFiles.IniFile.ReadProperty | IniUtil/IniUtil/IniFile.cs:158-201 | A property line computes `AddProperty`: split at the first delimiter, a blank key rejected, then merged into the current section under the duplicate policy |
| IniFiles.IniFile.ReadLine | IniUtil/IniUtil/IniFile.cs:88-201 | One pass of the read loop: the rest of the parse from the old state equals the parse continued from the state or error this line leaves. On failure, no section changes |
| IniFiles.IniFile.Load | IniUtil/IniUtil/IniFile.cs:77-203 | `Load(reader)` leaves exactly the sections, and ends with exactly the exception, that `Parse` gives for the old sections and the lines read |
| IniProperties.MergeGrows | IniUtil/IniUtil/IniFile.cs:177-199 | Merging a pair only appends it, or under Allow extends the value stored under the same key |
| IniProperties.AddPropertyGrows | IniUtil/IniUtil/IniFile.cs:158-201 | A property line keeps every section and every entry, values extended at most |
| IniProperties.AddSectionGrows | IniUtil/IniUtil/IniFile.cs:142-156 | A header only appends a section |
| IniProperties.CompleteGrows | IniUtil/IniUtil/IniFile.cs:137-201 | A completed line keeps every section and entry |
| IniProperties.JoinGrows | IniUtil/IniUtil/IniFile.cs:111-201 | So does a continued line |
| IniProperties.StepGrows | IniUtil/IniUtil/IniFile.cs:88-201 | So does one pass of the loop |
| IniProperties.RunGrows | IniUtil/IniUtil/IniFile.cs:86-202 | The whole loop never removes or renames a section, and never drops or rekeys an entry, even when it ends in an exception |
| IniProperties.ParseKeepsSections | IniUtil/IniUtil/IniFile.cs:79-80 | Load appends a `global` section after the existing ones and keeps all of those |
| IniProperties.MergeKeepsKeys | IniUtil/IniUtil/IniFile.cs:171-199 | Merging a non-blank key keeps the keys unique ignoring case and non-blank |
| IniProperties.AddPropertyKeepsShape | IniUtil/IniUtil/IniFile.cs:158-201 | A property line keeps keys unique and section names apart |
| IniProperties.AddSectionKeepsShape | IniUtil/IniUtil/IniFile.cs:142-156 | A header adds only a name that differs, ignoring case, from every section before it |
| IniProperties.CompleteKeepsShape | IniUtil/IniUtil/IniFile.cs:137-201 | A completed line keeps that shape |
| IniProperties.JoinKeepsShape | IniUtil/IniUtil/IniFile.cs:111-201 | So does a continued line |
| IniProperties.StepKeepsShape | IniUtil/IniUtil/IniFile.cs:88-201 | So does one pass of the loop |
| IniProperties.RunKeepsShape | IniUtil/IniUtil/IniFile.cs:86-202 | The shape is an invariant of the whole loop |
| IniProperties.ParseKeepsShape | IniUtil/IniUtil/IniFile.cs:77-203 | After Load, every section holds keys unique ignoring case and none blank. Each section the input opens has a name no earlier section has, ignoring case |
| IniProperties.ParsedKeysAreFound | IniUtil/IniUtil/IniSection.cs:18-26 | In every section after Load, `section[key]` is `v` exactly when `(key, v)` was stored |
| IniProperties.CommentLineIsSkipped | IniUtil/IniUtil/IniFile.cs:92-94 | A line starting with a comment character changes nothing but the line number |
| IniProperties.RunSkipsCommentLines | IniUtil/IniUtil/IniFile.cs:86-94 | Lines that are all comments leave the sections as they were |
| IniProperties.ParseOfCommentsIsEmpty | IniUtil/IniUtil/IniFile.cs:79-94 | Input made of comment lines adds one empty `global` section and nothing else |
| IniRules.NewKeyIsAppended | IniUtil/IniUtil/IniFile.cs:176-183 | A non-blank key not yet in the current section, ignoring case, is appended to it under every policy, and nothing else changes |
| IniRules.DuplicateKeyPolicy | IniUtil/IniUtil/IniFile.cs:184-199 | A key already present ignoring case: Abort fails with `DuplicatedProperty` at the line number; Ignore changes no section; Allow replaces the stored entry with `old + ";" + new`, or fails with `PropertyKeyNotFound` when only the case matches |
| IniRules.BlankKeyIsRejected | IniUtil/IniUtil/IniFile.cs:171-174 | A blank or empty key fails with `EmptyPropertyName` at the line number, whatever the policy |
| IniRules.StepReadsProperty | IniUtil/IniUtil/IniFile.cs:88-90 | Without continuation, a line whose trimmed text is neither empty nor a header is read as a property at the line's own, incremented, number |
| IniRules.ContinuedLinesAreJoined | IniUtil/IniUtil/IniFile.cs:111-137 | With continuation on, under any comment characters, lines ending in `\` followed by a non-empty line without one, none of them holding a comment character, form one logical line: each held line is right-trimmed of ` ` and `\`, they are joined in order with the last line after them, and the run goes on as `Complete` of that text |
| IniRules.HeaderAddsOneSection | IniUtil/IniUtil/IniFile.cs:142-156 | A completed line that trims to `[name]` succeeds exactly when no section has that name ignoring case (and no null name comes first), and then appends one empty section `name` that becomes current |
| IniRules.StepAddsAtMostOneSection | IniUtil/IniUtil/IniFile.cs:88-201 | One pass of the loop keeps the number of sections or appends exactly one empty section, the current one |
| IniProperties.InlineCommentIsCut | IniUtil/IniUtil/IniFile.cs:93-109 | A comment character at position 0 skips the line and a line without one is kept whole. With inline comments on, the kept text is a prefix of the text before the first comment character, minus only white space, not ending in white space, and followed by `\` exactly when continuation is on and the raw line ends in `\` |
| IniProperties.SplitPropertyRoundTrip | IniUtil/IniUtil/IniFile.cs:159-169 | Key, delimiter and value put back together give the line, and the key holds no delimiter; without a delimiter the whole line is key and value |
| IniProperties.DuplicateHeaderIsRejected | IniUtil/IniUtil/IniFile.cs:142-152 | A header whose name an existing section has, ignoring case, is rejected |
| IniProperties.CompleteNeverIndexesOut | IniUtil/IniUtil/IniFile.cs:137-201 | Reading a completed line never raises `IndexOutOfRangeException` |
| IniProperties.IndexOutOfRangeOnEmptyLine | IniUtil/IniUtil/IniFile.cs:95-113 | One pass of the loop raises `IndexOutOfRangeException` exactly when continuation is on and the line is empty after its comment is cut. The exception carries that line's number |
| IniProperties.BlankBeforeInlineComment | IniUtil/IniUtil/IniFile.cs:93-109 | With inline comments on, a line blank before its comment that does not end in `\` is left empty |
| IniScenarios.IgnoreModeScenario | IniUtil/IniUtilTests/IniFileTests.cs:25-36 | IgnoreModeTest: the repeated key is dropped, and two properties remain in `global` |
| IniScenarios.AllowModeScenario | IniUtil/IniUtilTests/IniFileTests.cs:39-51 | AllowModeTest: two properties, `key1` holding `val1;val3` |
| IniScenarios.AbortModeScenario | IniUtil/IniUtilTests/IniFileTests.cs:11-22 | AbortModeTest: `InvalidDataException` on line 3, after the first two pairs were stored |
| IniScenarios.CommentCharsScenario | IniUtil/IniUtilTests/IniFileTests.cs:75-86 | CommentCharsTest: lines starting with `;` or `#` are skipped, and one property is read |
| IniScenarios.InlineCommentScenario | IniUtil/IniUtilTests/IniFileTests.cs:89-100 | InlineCommentTest: the comment and the blanks before it are cut from the value |
| IniScenarios.InlineCommentWithContinuationScenario | IniUtil/IniUtilTests/IniFileTests.cs:103-114 | InlineCommentWithLineContinuationTest: `key1=val1 with line2` |
| IniSectionScenarios.EmptyContentsScenario | IniUtil/IniUtilTests/IniFileTests.cs:138-143 | EmptyContentsTest: no lines leave one empty `global` section |
| IniSectionScenarios.EmptyContentsWithCommentsScenario | IniUtil/IniUtilTests/IniFileTests.cs:146-156 | EmptyContentsWithCommentsTest: only comment lines leave one empty `global` section |
| IniSectionScenarios.NotExistSectionScenario | IniUtil/IniUtilTests/IniFileTests.cs:118-135 | NotExistSectionTest and NotExistSectionWithoutExceptionTest: on an `IniFile` holding what Load read, the indexer fails with `SectionNotFound("InvalidSectionName")` and `Find` gives null |
| IniSectionScenarios.MultipleSectionsScenario | IniUtil/IniUtilTests/IniFileTests.cs:159-170 | MultipleSectionsTest: three sections, and `key1` reads `val1` in both named ones |
| IniSectionScenarios.DuplicateKeyNameInSectionScenario | IniUtil/IniUtilTests/IniFileTests.cs:174-185 | DuplicateKeyNameInSectionTest: under Abort a repeated key in `Section1` is an error on line 3 |
| IniSectionScenarios.AllowCaseMismatchScenario | IniUtil/IniUtil/IniFile.cs:177-197 | Under Allow, a key repeating an earlier one only ignoring case raises `KeyNotFoundException`. The comparison ignores case but the lookup does not |
| IniSectionScenarios.HeaderLeaksIntoNextLineScenario | IniUtil/IniUtil/IniFile.cs:111-156 | With continuation on, `currentLine` is not cleared after a header, so `[S]` then `k=v` stores key `[S]k` |
| IniSectionScenarios.EmptyLineWithContinuationScenario | IniUtil/IniUtil/IniFile.cs:111-113 | With continuation on, an empty line raises `IndexOutOfRangeException` on its line number |
| IniSectionScenarios.SecondLoadScenario | IniUtil/IniUtil/IniFile.cs:79-80 | A second Load appends another `global`. The indexer finds the first one, so the new pairs go there |
| Raster.FilledPixels | SoftwareEngine3D/SoftwareEngine3D/SoftEngine.cs:71-78 | A buffer holding at every byte the channel its position calls for shows the colour at every pixel |
| Raster.Trunc | SoftwareEngine3D/SoftwareEngine3D/SoftEngine.cs:206 | `(int)` truncates toward zero: floor for non-negative values, ceiling for negative ones |
| Raster.Clamp | SoftwareEngine3D/SoftwareEngine3D/SoftEngine.cs:227-230 | The result lies in `[min, max]`. It is the value itself when inside, and `min` or `max` beyond either end |
| Raster.Interpolate | SoftwareEngine3D/SoftwareEngine3D/SoftEngine.cs:239-242 | The result never leaves `[min(a,b), max(a,b)]`. It is `a` for a gradient <= 0 and `b` for a gradient >= 1 |
| Raster.SortByYSorts | SoftwareEngine3D/SoftwareEngine3D/SoftEngine.cs:291-304 | After the three compare-and-swaps the corners are ordered by y and are a permutation of the inputs |
| Raster.WritePixel | SoftwareEngine3D/SoftwareEngine3D/SoftEngine.cs:129-137 | The pixel at the index reads back as the colour, and every byte of any other pixel is unchanged |
| Raster.WithDepthPixel | SoftwareEngine3D/SoftwareEngine3D/SoftEngine.cs:139-158 | A fragment behind the stored depth changes nothing. Otherwise (ties included) the depth becomes `z` and the pixel the colour, and nothing else changes |
| Raster.ClippedIndexInBounds | SoftwareEngine3D/SoftwareEngine3D/SoftEngine.cs:210-218 | A point passing the clipping test truncates to a pixel of the bitmap, whose index and 4 bytes are inside both buffers |
| Raster.PointIndex | SoftwareEngine3D/SoftwareEngine3D/SoftEngine.cs:144 | The index of a visible point lies in row `Trunc(y)`, column `Trunc(x)` |
| Raster.WithPoint | SoftwareEngine3D/SoftwareEngine3D/SoftEngine.cs:210-218 | A point that fails the clipping test changes nothing |
| Raster.WithPoint2 | SoftwareEngine3D/SoftwareEngine3D/SoftEngine.cs:200-208 | A visible 2-D point writes its colour at its own pixel, and nothing else changes, depths included. An invisible one changes nothing |
| Raster.PointFootprint | SoftwareEngine3D/SoftwareEngine3D/SoftEngine.cs:210-218 | A point changes at most its own pixel, which then holds its depth |
| Raster.SpanFootprint | SoftwareEngine3D/SoftwareEngine3D/SoftEngine.cs:270-276 | The pixel loop changes only columns `x .. ex-1` of its row, none when `x >= ex`. The depths it leaves lie between `z1` and `z2` |
| Raster.ScanLineFootprint | SoftwareEngine3D/SoftwareEngine3D/SoftEngine.cs:254-277 | A scan line changes only its own row, with depths between those of its four edge points |
| Raster.TriangleRowFootprint | SoftwareEngine3D/SoftwareEngine3D/SoftEngine.cs:324-348 | A row of the triangle loop changes only the row at the height it is drawn at, with depths between the corners' |
| Raster.RowsFootprint | SoftwareEngine3D/SoftwareEngine3D/SoftEngine.cs:324-349 | Rows `y .. last`, each drawn at its own height, change only rows `y .. last` |
| Raster.SortedBounds | SoftwareEngine3D/SoftwareEngine3D/SoftEngine.cs:291-304 | After the sort, `p1` has the least y and `p3` the greatest, and the depth range is that of the inputs |
| Raster.TriangleFootprint | SoftwareEngine3D/SoftwareEngine3D/SoftEngine.cs:286-351 | A triangle changes only rows `Trunc(min y)` to `Trunc(max y)` of its corners, with depths between the least and greatest corner depth |
| SoftEngine.Mesh.constructor | SoftwareEngine3D/SoftwareEngine3D/SoftEngine.cs:34-39 | Fresh `Vertices` and `Faces` of the given lengths, zero-filled, and the name set |
| SoftEngine.Device.constructor | SoftwareEngine3D/SoftwareEngine3D/SoftEngine.cs:50-60 | `width*height*4` bytes and `width*height` depth cells, zero-filled |
| SoftEngine.Device.Clear | SoftwareEngine3D/SoftwareEngine3D/SoftEngine.cs:69-85 | Every 4-byte group holds `b, g, r, a` in that order, and every depth cell holds `float.MaxValue` |
| SoftEngine.Device.Present | SoftwareEngine3D/SoftwareEngine3D/SoftEngine.cs:97-115 | Copying `len/4` words and then `len%4` bytes makes the target's first `len` bytes equal to the back buffer, and leaves the rest of the target unchanged |
| SoftEngine.Device.PutPixel | SoftwareEngine3D/SoftwareEngine3D/SoftEngine.cs:129-137 | The back buffer becomes `WritePixel` at `x + y*width` |
| SoftEngine.Device.PutPixelAtDepth | SoftwareEngine3D/SoftwareEngine3D/SoftEngine.cs:139-158 | The buffers become `WithDepthPixel` at `(x, y)` |
| SoftEngine.Device.DrawWhitePoint | SoftwareEngine3D/SoftwareEngine3D/SoftEngine.cs:172-175 | The buffers become `WithPoint2` with white |
| SoftEngine.Device.DrawPoint2D | SoftwareEngine3D/SoftwareEngine3D/SoftEngine.cs:200-208 | The buffers become `WithPoint2`: clipped, then written unconditionally |
| SoftEngine.Device.DrawPoint | SoftwareEngine3D/SoftwareEngine3D/SoftEngine.cs:210-218 | The buffers become `WithPoint`: clipped, then depth-tested |
| SoftEngine.Device.ProcessScanLine | SoftwareEngine3D/SoftwareEngine3D/SoftEngine.cs:254-277 | The buffers become `WithScanLine` for row `y`, hence `ScanLineFootprint` |
| SoftEngine.Device.DrawTriangleRow | SoftwareEngine3D/SoftwareEngine3D/SoftEngine.cs:324-349 | One iteration of either row loop is `WithTriangleRow` at height `y` |
| SoftEngine.Device.DrawRows | SoftwareEngine3D/SoftwareEngine3D/SoftEngine.cs:322-350 | Either row loop, rows `(int)p1.Y` to `(int)p3.Y` with the edges chosen by the side of p2, leaves the buffers at `WithRows` of the old buffers |
| SoftEngine.Device.DrawTriangle | SoftwareEngine3D/SoftwareEngine3D/SoftEngine.cs:286-351 | The buffers become `WithTriangle` of the corners, hence `TriangleFootprint` |
| ParallelDevice.ByteLockIndexOverruns | SoftwareEngine3D/SoftwareEngine3D/Device.cs:109-113 | Pixel `(0, 1)` of a 2x2 bitmap is on screen, yet the 3-argument `PutPixel` locks `lockBuffer[8]` of 4 |
| ParallelDevice.PixelLockIndexInRange | SoftwareEngine3D/SoftwareEngine3D/Device.cs:127-130 | Every on-screen pixel's own index is a valid lock |
| ParallelDevice.SortCommutesWithCoordinates | SoftwareEngine3D/SoftwareEngine3D/Device.cs:293-316 | Sorting vertices by screen y and taking their coordinates equals sorting the coordinates |
| ParallelDevice.CorrectedMatchesSoftEngine | SoftwareEngine3D/SoftwareEngine3D/Device.cs:288-375 | With each row drawn at its own height, this `DrawTriangle` draws exactly what the sequential one of `SoftEngine.cs` draws |
| ParallelDevice.AsWrittenTouchesRowZeroOnly | SoftwareEngine3D/SoftwareEngine3D/Device.cs:328 | With `currentY` never set, whatever the triangle, only row 0 of the bitmap can change |
| ParallelDevice.CorrectedDiffersFromAsWritten | SoftwareEngine3D/SoftwareEngine3D/Device.cs:328-375 | For corners (1, 2), (3, 3), (1, 5) at depth 0 on an 8x8 bitmap whose depth at index 25 is not below 0: drawn at each row's own height, pixel (1, 3) ends with colour c and depth 0; as written, every pixel of row 3 keeps its colour and depth |
| ParallelDevice.CorrectedTouchesTriangleRows | SoftwareEngine3D/SoftwareEngine3D/Device.cs:346-375 | With each row drawn at its own height, only the rows between the lowest and the highest corner change |
| ParallelDevice.Device.constructor | SoftwareEngine3D/SoftwareEngine3D/Device.cs:24-40 | `width*height*4` bytes, `width*height` depth cells and `width*height` locks |
| ParallelDevice.Device.Clear | SoftwareEngine3D/SoftwareEngine3D/Device.cs:49-65 | Every 4-byte group holds `b, g, r, a`, and every depth cell holds `float.MaxValue` |
| ParallelDevice.Device.Present | SoftwareEngine3D/SoftwareEngine3D/Device.cs:83-95 | The target's first `len` bytes equal the back buffer, and the rest is unchanged |
| ParallelDevice.Device.PutPixel | SoftwareEngine3D/SoftwareEngine3D/Device.cs:109-120 | As written, it can only be called when the byte index `(x + y*width)*4` is a valid lock, and then writes the pixel at `x + y*width` |
| ParallelDevice.Device.PutPixelLockingPixel | SoftwareEngine3D/SoftwareEngine3D/Device.cs:109-120 | With the lock taken at the pixel index, the back buffer becomes `WritePixel` at `x + y*width` for every on-screen pixel |
| ParallelDevice.Device.PutPixelAtDepth | SoftwareEngine3D/SoftwareEngine3D/Device.cs:122-144 | Under the pixel's lock, the buffers become `WithDepthPixel` |
| ParallelDevice.Device.DrawWhitePoint | SoftwareEngine3D/SoftwareEngine3D/Device.cs:146-149 | With the corrected pixel-index lock of Findings row 1, the buffers become `WithPoint2` with white |
| ParallelDevice.Device.DrawPoint2D | SoftwareEngine3D/SoftwareEngine3D/Device.cs:186-194 | Clipped, then written through the corrected `PutPixelLockingPixel` of Findings row 1: the buffers become `WithPoint2` |
| ParallelDevice.Device.DrawPoint | SoftwareEngine3D/SoftwareEngine3D/Device.cs:196-204 | The buffers become `WithPoint` |
| ParallelDevice.Device.ProcessScanLine | SoftwareEngine3D/SoftwareEngine3D/Device.cs:240-269 | The buffers become `WithScanLine` at height `currentY` between the vertices' coordinates |
| ParallelDevice.Device.DrawTriangleRow | SoftwareEngine3D/SoftwareEngine3D/Device.cs:348-373 | One iteration of either row loop is `WithTriangleRow` at the given height |
| ParallelDevice.Device.DrawRows | SoftwareEngine3D/SoftwareEngine3D/Device.cs:346-374 | Either row loop, each row drawn at its own height, leaves the buffers at `WithRows` of the old buffers |
| ParallelDevice.Device.DrawTriangle | SoftwareEngine3D/SoftwareEngine3D/Device.cs:288-375 | With each row drawn at its own height, the buffers become `WithVertexTriangle`, hence `CorrectedTouchesTriangleRows` |
| Textures.CRem | SoftwareEngine3D/SoftwareEngine3D/Texture.cs:57 | C#'s `%`: the dividend minus the quotient truncated toward zero times the divisor's magnitude, so smaller in magnitude than the divisor and with the sign of the dividend |
| Textures.Map | SoftwareEngine3D/SoftwareEngine3D/Texture.cs:48-67 | Without an image the result is white. A zero size raises `DivideByZeroException` and nothing else does. A success is the BGRA texel at the wrapped `(u, v)`, returned as RGBA over 255 |
| Textures.WrapInRange | SoftwareEngine3D/SoftwareEngine3D/Texture.cs:57-58 | `u = |(int)(t*w) % w|` lies in `[0, |w|)` for any `t` |
| Textures.CRemOfNatural | SoftwareEngine3D/SoftwareEngine3D/Texture.cs:57 | On non-negative numbers, C#'s `%` is the mathematical remainder, and `n + w` has the same remainder as `n` |
| Textures.WrapRepeats | SoftwareEngine3D/SoftwareEngine3D/Texture.cs:56-57 | For `t >= 0` the texture repeats: `t` and `t + 1` sample the same texel |
| Textures.WrapMirrors | SoftwareEngine3D/SoftwareEngine3D/Texture.cs:57-58 | `-t` and `t` sample the same texel, so negative coordinates mirror rather than repeat |
| Textures.TexelInBounds | SoftwareEngine3D/SoftwareEngine3D/Texture.cs:60-64 | `pos = (u + v*w)*4` satisfies `0 <= pos` and `pos + 3 < w*h*4` |
| Textures.WellSizedMapSucceeds | SoftwareEngine3D/SoftwareEngine3D/Texture.cs:36-64 | When the decoded image has the declared size, every `(tu, tv)` samples a texel |
| Textures.ChannelsInUnitRange | SoftwareEngine3D/SoftwareEngine3D/Texture.cs:61-66 | Every channel returned lies in `[0, 1]` |
| Textures.SamplesWrittenTexel | SoftwareEngine3D/SoftwareEngine3D/Texture.cs:60-66 | A texel written in BGRA order is sampled back as its colour over 255, in RGBA order |
| Textures.SmallerImageReadsOutOfRange | SoftwareEngine3D/SoftwareEngine3D/Texture.cs:18-64 | A texture declared 4x4 whose image decoded as 2x2 raises `IndexOutOfRangeException` at `(0.9, 0.9)` |

## Left out

- `Load(fileName)`, `LoadString` and the `StreamReader` are left out, because they are file and stream I/O (IniUtil/IniUtil/IniFile.cs:49-75). The model takes the sequence of lines `ReadLine` yields.
- `ToUpperInvariant` is modelled for ASCII letters only. Unicode case mapping has no counterpart here.
- A null `currentLine` is the empty string. The source only ever appends to it or overwrites it.
- Null section names given by a caller are kept, as `Option<string>`. Null keys and values cannot arise from reading lines and are not modelled.
- `LineContinuationTest` (IniUtil/IniUtilTests/IniFileTests.cs:54-72) is not restated as a scenario lemma on its own input. Its lines hold no comment character, so the joining it checks is the rule `IniRules.ContinuedLinesAreJoined` states for every such input, under the default comment character `;` as under any other. Continuation is also pinned by `IniScenarios.InlineCommentWithContinuationScenario`, `IniSectionScenarios.HeaderLeaksIntoNextLineScenario` and `IniSectionScenarios.EmptyLineWithContinuationScenario`.
- Projection, `Render`, the camera and matrix transforms are left out, because they are floating-point matrix code of the SharpDX library.
- `ComputeNDotL` is left out. The colour `DrawTriangle` receives is the shaded one, so `color * ndotl` is already applied.
- The `float`-to-byte conversion `(byte)(channel * 255)` is left out. Colours are the four bytes written.
- `float` arithmetic is modelled as exact `real` arithmetic. Rounding, NaN and infinities are not modelled, nor an `(int)` cast of a value beyond the `int` range.
- `int` overflow is not modelled, for example in `x + y*width` or in `Math.Abs(int.MinValue)`.
- `Parallel.For`, `lock`, `uiContext` and `async` are left out, because they are concurrency. A lock is modelled only by the array access it makes, whose index must lie in `lockBuffer`.
- The unsafe pointers of `Present`, and `bmp.Lock`, `AddDirtyRect` and `Unlock`, are left out. Only the byte copy into a plain array is modelled.
- `LoadJSONFileAsync`, `Util.ReadTextAsync` and `Texture.Load` are left out, because they are JSON decoding, async file I/O and WPF image decoding. A texture's image is an optional byte sequence.
- `Device.Project` and `Swap` are left out. `Swap` is modelled by the parallel assignments of `DrawTriangle`.
- SoftEngine.Device.PutPixel: an out-of-range index raises `IndexOutOfRangeException` in C#. It is a precondition here, which every `DrawPoint` call meets after clipping.
- SoftEngine.Device.PutPixelAtDepth: likewise, the index is a precondition rather than an exception.
- ParallelDevice.Device.PutPixelAtDepth: likewise.
- ParallelDevice.Device.DrawPoint2D: it calls the corrected `PutPixelLockingPixel` of Findings row 1, not the 3-argument `PutPixel` as written. The source raises `IndexOutOfRangeException` for any visible point whose byte index `(x + y*width)*4` reaches `width*height` (for example (0.5, 1.5) on a 2x2 bitmap); the model writes that pixel instead.
- ParallelDevice.Device.DrawWhitePoint: it goes through `DrawPoint2D`, so it uses the same corrected lock and does not raise that exception.
- Raster.WithPoint: its own contract says only that an invisible point changes nothing. What a visible point does is stated by `Raster.WithDepthPixel` and `Raster.PointFootprint`.
- SoftEngine.Device.DrawTriangle: the two row loops the source writes inline are one `DrawRows` method whose `rightBend` argument picks the edges, and its loop body is a `DrawTriangleRow` helper with the same branches. `ParallelDevice.Device.DrawTriangle` is split the same way.

## Findings

| source | as written | input that shows it | evidently intended | confidence | as-written member | corrected member |
|---|---|---|---|---|---|---|
| SoftwareEngine3D/SoftwareEngine3D/Device.cs:111-113 | The 3-argument `PutPixel` locks `lockBuffer[(x + y*width)*4]`, the byte index, in an array of `width*height` locks | A 2x2 bitmap and pixel (0, 1): the index locked is 8 but there are 4 locks, so `IndexOutOfRangeException`. Every pixel past the first quarter fails | Lock `lockBuffer[x + y*width]`, the pixel index, as the depth-tested `PutPixel` does | not executed | ParallelDevice.ByteLockIndexOverruns | ParallelDevice.Device.PutPixelLockingPixel |
| SoftwareEngine3D/SoftwareEngine3D/Device.cs:328 | `DrawTriangle` creates `ScanLineData` with only `ndotla` set, so `currentY` keeps its default 0. Every row is drawn at height 0 | A triangle with corners (1, 2), (3, 3), (1, 5), all at depth 0, on an 8x8 bitmap whose depth at pixel (1, 3) is not below 0. Drawn at each row's own height, row 3 colours pixel (1, 3), index 25. As written, row 3 is left as it was, and only row 0 can change (`ParallelDevice.AsWrittenTouchesRowZeroOnly`) | Set `data.currentY = y` in each iteration, as `SoftEngine.cs` passes `y` | not executed | ParallelDevice.CorrectedDiffersFromAsWritten | ParallelDevice.Device.DrawTriangle |
