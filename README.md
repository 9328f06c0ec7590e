# bed-bim-filter, modelled in Dafny

bed-bim-filter is a small command-line filter for genomic text files. It
reads a coordinate file (BED- or PLINK `.bim`-style, tab-separated) into a
set of (chromosome, position) pairs. It then streams a data file (often a
VCF) and prints its header block, followed by every data line whose
(chromosome, position) key is in that set.

This project models the program's core:

- line-terminator detection on the data stream (`findEndOfLineChar`);
- the record codec shared by both files: tab splitting, `strconv.Atoi` and
  the optional "chr" prefix;
- the coordinate-set builder (`readBed`);
- the header pass-through in `readFile`, including the VCF meta block that
  ends at the `#CHROM` column-header line (the `##fileformat` line of
  section 1.3.1 and the header line of section 1.4 of the VCF v4.2
  specification);
- the producer loop, the worker (`processLine`) and the printer;
- the `.bim` default for the position column in `setup`.

The model is organised as follows:

- **Reader.** A `bufio.Reader` is modelled by the input it has not yet
  delivered. `ReadString(d)` returns the text through the first `d`, or
  everything left together with end of stream.
- **Fatal conditions.** A `log.Fatal` call and a Go panic (index or slice
  out of range) become an `Err` outcome naming the failure.
- **State changes.** The state-changing steps are methods, the loops
  among them with their invariants. Each is proved equal to a
  specification function: `Coordinates.ReadBed`,
  `Pipeline.ReadHeader`, `Pipeline.Produce`, `Pipeline.ProcessLine`,
  `Pipeline.Consume`, `Pipeline.ReadFile` and `Pipeline.Filter`. The
  program's promises are lemmas about those functions.
- **Output.** Standard output is a sequence with one entry per `Print` or
  `Println` call.
- **Workers.** The ten workers are modelled through one worker's
  behaviour. Separately, for any assignment of queued lines to workers,
  the workers together forward exactly the matching lines as a multiset.

Modules, one file each:

- `Outcomes`: failures, results and options.
- `Text`: split, join, substring search and `ReadString`.
- `Decimal`: `Atoi` and `Itoa`.
- `Codec`: the chromosome prefix rule and the key of a coordinate line or
  a data line.
- `Coordinates`: `readBed`.
- `Terminator`: `findEndOfLineChar`.
- `Pipeline`: `readFile`, `processLine` and `main`.
- `Runs`: whole runs on well-formed and malformed streams.
- `Scenarios`: one concrete run.
- `Setup`: the `.bim` rule.

Four behaviours of the code are kept as written, although a reader of
the program's purpose would likely expect otherwise:

- **The first header line is printed without its line ending.**
  `findEndOfLineChar` strips the terminator and main.go:179 uses
  `fmt.Print`, so the first printed record continues the header's output
  line. For the coordinate file `1\t100\n` and the data
  `#CHROM\tPOS\n1\t100\n2\t200\n`, the output text is
  `#CHROM\tPOS1\t100\n`, not `#CHROM\tPOS\n1\t100\n`.
  `Scenarios.SampleRun` and `Runs.PlainStreamText` state this.
- **The "chr" test is not a literal prefix test.** A name shorter than
  four characters is always prefixed, so `chr` becomes `chrchr`.
- **Blank coordinate lines are not skipped.** They abort the run.
- **Coordinate files with `\r\n` endings keep the `\r` in the last
  field.** The coordinate file is always read with `\n`.

## Model

| member | source | states |
|---|---|---|
| Text.ContainsIff | main.go:156 | the pattern test (as `regexp.MatchString` answers it for a literal pattern) holds exactly when the pattern occurs at some offset of the text |
| Text.Split | main.go:114 | `strings.Split` on one character yields at least one field; no field contains the separator; exactly one field when the text has no separator |
| Text.JoinSplit | main.go:228 | splitting loses no text: joining the fields with the separator gives the line back |
| Text.SplitJoin | main.go:228 | fields without separators, joined and split again, are recovered exactly |
| Text.SplitAtSeparator | main.go:114 | a separator after separator-free text ends the first field there |
| Text.ReadString | main.go:104 | `ReadString(d)` delivers a prefix of the unread input ending in its first `d`, or at end of stream all that is left, which holds no `d` |
| Text.ReadStringAt | main.go:184 | text without `d` followed by `d` is delivered as one row, delimiter included |
| Text.ChunksOfTerminated | main.go:183-197 | reading terminated lines and cutting the terminator width off each row gives the lines back in order; text after the last terminator is never delivered |
| Text.ChunkOfLine | main.go:184-196 | a terminator-free line followed by its terminator is delivered as the next queued chunk, terminator cut, and the reader continues right after it |
| Text.ChunksAreSplitFields | main.go:103-114 | the `\n` rows of a coordinate file, each with its last byte cut, are the `\n`-separated fields of the file except the unterminated remainder |
| Decimal.Atoi | main.go:116 | an accepted position lies in the 64-bit range |
| Decimal.AtoiItoa | main.go:230 | `Atoi` reads every 64-bit integer back from its canonical spelling, sign included |
| Decimal.AtoiPlus | main.go:116 | a leading `+` is accepted |
| Decimal.AtoiLeadingZero | main.go:116 | a `0` after the optional sign leaves the value unchanged; with `DigitsOfMagnitude`, `AtoiItoa`, `AtoiPlus`, `AtoiMinusZero` and `AtoiOutOfRange`, every spelling of sign and digits is read as its decimal value or rejected as out of range |
| Decimal.AtoiMinusZero | main.go:116 | `-0` reads as 0 |
| Decimal.AtoiZeroPadded | main.go:116 | `0100` reads as 100 |
| Decimal.AtoiPlusZeros | main.go:116 | `+007` reads as 7 |
| Decimal.AtoiRejectsStray | main.go:116-120 | any character that is not a digit (other than a leading sign) makes the field unreadable, e.g. a trailing `\r` or `NOTANUMBER` |
| Decimal.AtoiNeedsDigits | main.go:116-120 | `""`, `"+"` and `"-"` are rejected |
| Decimal.AtoiRange | main.go:116-120 | one past either end of the 64-bit range is rejected; the minimum itself is accepted |
| Decimal.DigitsOfMagnitude | main.go:116 | a digit string without a leading zero, or the single digit `0`, is the canonical spelling of its own value, so after stripping leading zeros every digit string is some `Digits(n)` |
| Decimal.MagnitudePositive | main.go:116 | a digit string that does not start with `0` has a value of at least 1 |
| Decimal.AtoiOutOfRange | main.go:116-120 | every magnitude above the maximum is rejected, unsigned or with `+`, and every magnitude above minus the minimum is rejected with `-` |
| Codec.UcscName | main.go:122-127 | the result is the name itself or "chr" followed by the name; with conversion on, it is the name itself exactly when the name has at least four characters and starts with "chr", so the result always starts with "chr"; with conversion off it is unchanged |
| Codec.UcscNameIdempotent | main.go:236-241 | converting a non-empty name twice is converting it once |
| Codec.UcscNameExamples | main.go:122 | "1" becomes "chr1", "chr1" stays, "chr" becomes "chrchr", and the empty name is converted differently on a second pass |
| Codec.BedKeyOutcomes | main.go:114-127 | reading a coordinate line panics with an index error exactly when posIdx is outside the fields, or chrIdx is and the position reads; the position is fatal exactly when field posIdx exists and `Atoi` rejects it; it yields a key exactly when both fields exist and the position reads, and the key is then the converted field chrIdx with the 64-bit value `Atoi` reads from field posIdx |
| Codec.DataKey | main.go:228-230 | reading a data line's key panics on field 1 exactly when the line has no tab |
| Codec.DataKeyOutcomes | main.go:227-240 | reading a data line's key panics exactly when the line has fewer than two fields, is fatal exactly when field 1 exists and Atoi rejects it, and otherwise yields the converted field 0 with the value Atoi reads from field 1 |
| Codec.ClassifyUnreadable | main.go:227-233 | a data line of two or more tab-free fields whose field 1 Atoi rejects makes the worker fail with that record, whatever the map holds |
| Codec.ClassifyFields | main.go:228-245 | a data line of chromosome, canonical position and further tab-free fields is a hit exactly when the converted chromosome is in the map and its set holds the position; a chromosome absent from the map is a miss |
| Codec.BedKeyOfFields | main.go:114-132 | a coordinate line made of tab-free fields with a canonical position at posIdx yields the converted field chrIdx and that position |
| Codec.DataKeyOfFields | main.go:228-230 | a data line of chromosome, canonical position and further fields yields the converted chromosome and that position |
| Codec.ItoaHasNoTab | main.go:230 | a canonical position never contains a tab |
| Codec.BlankBedLineFails | main.go:104-116 | a blank coordinate line is not skipped and fails: an index error when posIdx is not 0, an unreadable position otherwise |
| Codec.CarriageReturnInLastField | main.go:114 | a `\r` left before the cut `\n` stays in the last field |
| Codec.CrlfLastColumnPositionFails | main.go:114-120 | with `\r\n` coordinate files, a position in the last column cannot be read and ends the run |
| Coordinates.Insert | main.go:129-135 | inserting a pair adds exactly that pair, adds its chromosome to the keys, and keeps every set that was there |
| Coordinates.ReadBed | main.go:97-139 | the in-place loop builds exactly the map of the specification function over the file's `\n` rows, or fails with the first bad row's failure |
| Coordinates.ReadBedStep | main.go:103-135 | one loop turn either inserts the row's key and continues with the rest of the input, or ends the build with the row's failure |
| Coordinates.BuildListed | main.go:103-135 | a pair is in the built map exactly when it was there before or some line's key is that pair |
| Coordinates.BuildFails | main.go:116-120 | building fails exactly when some line's key cannot be read |
| Coordinates.BuildFailsFirst | main.go:114-120 | a failed build reports the failure of the first line that fails, all earlier lines reading fine |
| Coordinates.BuildGrows | main.go:129-135 | later lines never remove a chromosome or a position |
| Coordinates.CoordinatesOfLines | main.go:103-114 | a coordinate file of complete lines builds from exactly those lines; a final line without `\n` is never inserted |
| Coordinates.BlankLineAborts | main.go:104-116 | a blank line anywhere in the coordinate file makes the build fail |
| Terminator.FindEndOfLine | main.go:253-287 | detection reports one of the three endings and consumes at least one character, or fails with end of stream |
| Terminator.SkipLineText | main.go:285-286 | characters other than `\r` and `\n` are moved one at a time into the accumulated header text |
| Terminator.DetectLF | main.go:281-283 | a `\n` first gives the `\n` ending of width 1, the text before it as the header, and the reader right after it |
| Terminator.DetectCRLF | main.go:260-275 | `\r\n` first gives byte `\n` with width 2 and consumes both characters |
| Terminator.DetectCR | main.go:260-278 | a `\r` followed by any other character gives the `\r` ending of width 1 and leaves that character unread |
| Terminator.DetectFails | main.go:254-265 | a stream with no terminator, or whose only one is a final `\r`, fails and its text is lost |
| Pipeline.MetaBlock | main.go:158-176 | the VCF header block is a prefix of the unread input; the reader continues right after it, or is exhausted with no delimiter left; its only failure is the `row[:6]` slice |
| Pipeline.ReadHeader | main.go:156-179 | the header loop appends rows verbatim and yields exactly the specification's header and the reader after it |
| Pipeline.Produce | main.go:182-201 | the producer queues exactly the rows through the terminator byte, each less the terminator width, in input order |
| Pipeline.ProcessLine | main.go:226-251 | the worker loop forwards exactly the specification's hits for its queue, or the first failure |
| Pipeline.HitsAreMatching | main.go:227-245 | a worker completes exactly when every queued key is readable, and then forwards exactly the listed lines, unmodified and in queue order |
| Pipeline.HitsFailFirst | main.go:230-234 | a failing worker reports the first queued line whose key cannot be read |
| Pipeline.MatchingMembers | main.go:243-245 | a line is forwarded exactly when it was queued and its key is listed |
| Pipeline.MatchingAppend | main.go:227-245 | filtering preserves input order across any split of the queue |
| Pipeline.ShareMembers | main.go:227 | each worker takes only queued lines |
| Pipeline.WorkersForwardMatching | main.go:211-221 | however the queued lines are shared among the workers, together they forward exactly the matching lines, each as often as it is queued, and each worker forwards its share's listed lines in order |
| Pipeline.ForwardedKeep | main.go:212-219 | each queued line is consumed by exactly one worker, so the workers' outputs add up to the filtered queue |
| Pipeline.Printed | main.go:94 | one `Println` per forwarded line, each the line followed by `\n` |
| Pipeline.Consume | main.go:203-209 | the printer appends one printed line per result, in arrival order, after what was already written |
| Pipeline.ReadFile | main.go:141-224 | the sequential `readFile` writes and ends exactly as the specification run: detection, header, queue, filter, print |
| Pipeline.Filter | main.go:73-94 | the program builds the coordinate set and then filters the data stream, or stops with the build's failure before printing anything |
| Runs.DetectFirstLine | main.go:150 | a first line of text and its terminator are detected as that ending with that text as header |
| Runs.QueueOfLines | main.go:183-197 | the producer queues exactly the complete lines of a stream in the detected ending, under all three endings |
| Runs.PlainStream | main.go:150-224 | a stream without VCF marker prints its first line as the header and filters every complete line after it; with a bare `\r` ending this needs something after the first terminator, since a final `\r` is not detected |
| Runs.PlainStreamOutput | main.go:179-209 | such a run completes exactly when every line has a readable key; then it prints the header and each listed line in input order; otherwise only the header is sure to be printed |
| Runs.EndingsAgree | main.go:150-196 | for streams whose first line lacks the VCF marker: `\n` and `\r\n` streams of the same lines give the same output; so does a bare `\r` stream with anything after the header's terminator |
| Runs.VcfEndingsAgree | main.go:156-197 | for VCF streams, two line endings give the same filtered lines and the same way of ending, while the printed headers carry each ending verbatim and so differ in their terminators |
| Runs.ShortMetaRowEndings | main.go:173 | a four-character meta row passes the `row[:6]` test with `\r\n` but not with `\n`, so which meta rows the header loop accepts depends on the ending |
| Runs.FlattenPrinted | main.go:94 | the printed lines, written out, are the lines each terminated by `\n` |
| Runs.PlainStreamText | main.go:179 | the written output is the header with no terminator followed directly by the listed lines, each with `\n` |
| Runs.MetaBlockOfRows | main.go:158-176 | the VCF header loop takes every meta row and the `#CHROM` row verbatim and leaves the reader right after the `#CHROM` row |
| Runs.MetaRowStep | main.go:171-175 | a meta row is appended to the header, terminator included, and the loop goes on with the input after it |
| Runs.ColumnHeaderRow | main.go:171-174 | a row starting with `#CHROM` is appended to the header and ends the loop, the reader right after it |
| Runs.MetaBlockToEnd | main.go:158-163 | without a `#CHROM` row the VCF header loop consumes the whole stream |
| Runs.VcfStream | main.go:156-197 | a VCF stream prints the first line, the meta rows and the `#CHROM` row as its header, and filters only the lines after the `#CHROM` row |
| Runs.HeaderToEnd | main.go:182-187 | a header that consumes the stream leaves nothing to queue, and the run completes with the header only |
| Runs.VcfWithoutColumnHeader | main.go:156-179 | a VCF stream without `#CHROM` row prints the first line's text and every terminated meta row as the header; an unterminated remainder is dropped; nothing is filtered; with a bare `\r` ending this needs a meta row or a remainder after the first terminator, since a final `\r` is not detected |
| Runs.BlankHeaderRowAborts | main.go:165-173 | an empty row inside a VCF header is not skipped; it panics on `row[:6]` before anything is printed |
| Runs.BlankMetaRow | main.go:165-173 | a header row that is only a line ending is shorter than six characters and fails the `row[:6]` slice |
| Runs.UndetectedEndingAborts | main.go:150-154 | an empty stream, a stream with no terminator, or one whose only terminator is a final `\r` ends the run before anything is printed |
| Runs.ForwardedIffListed | main.go:243 | a data line passes exactly when its key reads and equals the key of some coordinate line |
| Runs.ProgramRun | main.go:73-94 | on a coordinate file of complete lines, the data is filtered against the map those lines build, and a bad coordinate line stops the run with no output |
| Scenarios.SampleCoordinates | main.go:97-139 | the coordinate file `1\t100\n` lists exactly the pair ("1", 100) |
| Scenarios.SampleBedKey | main.go:114-132 | the coordinate line `1\t100` reads as chromosome "1" at position 100 |
| Scenarios.SampleHeaderIsPlain | main.go:156 | `#CHROM\tPOS` does not carry the VCF marker |
| Scenarios.SampleHits | main.go:226-245 | of `1\t100` and `2\t200` only the first is forwarded |
| Scenarios.SampleLineListed | main.go:228-245 | `1\t100` is a hit against the pair ("1", 100) |
| Scenarios.SampleLineUnlisted | main.go:228-245 | `2\t200` is not a hit against that pair |
| Scenarios.HitsOfPair | main.go:226-251 | a queue of a hit followed by a miss forwards the hit alone |
| Scenarios.SampleDataLines | main.go:150 | the sample data is one header line and two `\n`-terminated lines |
| Scenarios.SampleStream | main.go:141-224 | the sample data filtered against ("1", 100) prints `#CHROM\tPOS` and then `1\t100\n` and completes |
| Scenarios.SampleRun | main.go:59-95 | filtering the sample prints `#CHROM\tPOS` and then `1\t100\n` and completes |
| Scenarios.SampleOutputText | main.go:179 | that output reads `#CHROM\tPOS1\t100\n`: the header and the first record share a line |
| Setup.PosIdxDefault | main.go:42-50 | the position index is the parsed one or 3, and only a `.bim` path can change it |
| Setup.ContainsAcrossSpace | main.go:42 | a pattern without spaces found in two texts joined by a space lies in one of them |
| Setup.ContainsJoin | main.go:42 | `-posIdx` occurs in the space-joined arguments exactly when it occurs inside one argument |
| Setup.FlagMentionKeepsParsed | main.go:42-48 | any argument mentioning `-posIdx`, even inside a longer argument, keeps the parsed index |
| Setup.BimPathUsesColumnThree | main.go:46-50 | a path ending in `.bim`, with no argument mentioning `-posIdx`, reads positions from column 3 |

## Left out

- Goroutines, channels, the `complete` counting and the `WaitGroup` (main.go:144-148, 182-223, 250) are not modelled as concurrent processes. The run is modelled as producer, then one worker, then the printer. The order in which ten workers deliver lines is nondeterministic. It is not modelled; only the multiset of forwarded lines is proved (`Pipeline.WorkersForwardMatching`).
- Pipeline.ReadFile: on an abort, the output holds only what is certain to be written before the process stops. That is the header when the failure comes after it, and nothing otherwise. Lines the printer may already have flushed are not modelled. A producer failure is taken to come before any worker failure, and a worker failure before any later line.
- Read errors other than end of stream (the `log.Fatal` calls at main.go:109, 164 and 189) are not modelled, because the input is a string that is always readable.
- The `row == ""` branches (main.go:110, 165, 190) are not modelled separately. Without a read error, `ReadString` never returns an empty row, so they never fire.
- `ReadRune`'s UTF-8 decoding is not modelled. The input is a sequence of already-decoded characters, and a row's width is counted in characters.
- Flag parsing, the missing `bedPath` check, file opening, stdin selection and closing (main.go:27-41, 59-92) are process I/O and are not modelled. `Setup.PosIdxDefault` takes the parsed flag value and the argument list as parameters.
- The texts of `log.Fatal` messages are not modelled; a failure is reported only by its kind.
- The regular expressions `##fileformat=VCF`, `-posIdx` and `\.bim$` are modelled as literal substring and suffix tests. That is all they match, since they contain no special characters other than the escaped dot and the end anchor.
