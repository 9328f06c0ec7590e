/**
 * Whole runs of the filter on well-formed input: which header is printed,
 * which data lines reach the output and in what order, and how each kind of
 * malformed input ends the run.
 */
module Runs {
  import opened Outcomes
  import opened Text
  import opened Codec
  import opened Terminator
  import opened Pipeline
  import Coordinates

  /** The three endings detection can report. */
  predicate Detectable(e: LineEnding)
  {
    e == LF || e == CRLF || e == CR
  }

  /** Lines with no terminator character inside. */
  predicate AllLineText(lines: seq<string>)
  {
    forall i :: 0 <= i < |lines| ==> LineText(lines[i])
  }

  /** Standard output as one text: every Print and Println in order. */
  function Flatten(out: seq<string>): string
    decreases |out|
  {
    if out == [] then [] else out[0] + Flatten(out[1..])
  }

  /** A row of text with its terminator is delivered whole by one ReadString. */
  lemma ReadRow(row: string, e: LineEnding, more: string)
    requires Detectable(e) && LineText(row)
    ensures ReadString(row + EndText(e) + more, e.delim) == Row(row + EndText(e))
  {
    var t := EndText(e);
    var a := row + t[..|t| - 1];
    assert e.delim !in a by {
      forall k | 0 <= k < |a| ensures a[k] != e.delim {
        if k < |row| {
          assert a[k] == row[k];
        }
      }
    }
    assert row + t == a + [e.delim];
    ReadStringAt(a, e.delim, more);
  }

  lemma NoDelimiter(s: string, e: LineEnding)
    requires Detectable(e) && LineText(s)
    ensures e.delim !in s
  {
    forall k | 0 <= k < |s| ensures s[k] != e.delim {
    }
  }

  /**
   * The text after a first line is read as lines of the detected ending;
   * a bare '\r' ending needs a character after it that is not '\n'.
   */
  lemma DetectFirstLine(h: string, e: LineEnding, x: string)
    requires Detectable(e) && LineText(h)
    requires e == CR ==> x != [] && x[0] != '\n'
    ensures FindEndOfLine(h + EndText(e) + x, "") == Ok(Detection(e, h, x))
  {
    if e == LF {
      DetectLF(h, x);
    } else if e == CRLF {
      DetectCRLF(h, x);
    } else {
      DetectCR(h, x[0], x[1..]);
      assert [x[0]] + x[1..] == x;
      assert h + "\r" + [x[0]] + x[1..] == h + EndText(e) + x;
    }
  }

  /** The producer queues exactly the complete lines of a stream in the detected ending. */
  lemma QueueOfLines(lines: seq<string>, e: LineEnding, tail: string)
    requires Detectable(e) && AllLineText(lines) && LineText(tail)
    ensures Chunks(Terminated(lines, EndText(e)) + tail, e.delim, e.width) == Ok(lines)
  {
    var t := EndText(e);
    forall i | 0 <= i < |lines| ensures e.delim !in lines[i] {
      NoDelimiter(lines[i], e);
    }
    NoDelimiter(tail, e);
    assert e.delim !in t[..|t| - 1];
    ChunksOfTerminated(lines, t, tail, e.delim);
  }

  /** Text that begins with a line of text and a terminator does not begin with '\n'. */
  lemma LinesStart(lines: seq<string>, e: LineEnding, tail: string)
    requires Detectable(e) && AllLineText(lines) && lines != []
    ensures var x := Terminated(lines, EndText(e)) + tail; e == CR ==> x != [] && x[0] != '\n'
  {
    if e == CR {
      var x := Terminated(lines, EndText(e)) + tail;
      assert x == lines[0] + "\r" + (Terminated(lines[1..], EndText(e)) + tail);
      if lines[0] != [] {
        assert x[0] == lines[0][0];
      }
    }
  }

  /**
   * A stream whose first line has no VCF marker: that line, without its
   * terminator, is the header, and every complete line after it goes
   * through the filter; text after the last terminator is ignored.
   */
  lemma PlainStream(h: string, lines: seq<string>, e: LineEnding, tail: string, m: CoordinateMap, convert: bool)
    requires Detectable(e) && LineText(h) && !Contains(h, VCF_MARKER)
    requires AllLineText(lines) && LineText(tail)
    requires e == CR ==> lines != [] || tail != []
    ensures FilterRun(h + EndText(e) + Terminated(lines, EndText(e)) + tail, m, convert)
         == Finish(h, Hits(lines, m, convert))
  {
    var x := Terminated(lines, EndText(e)) + tail;
    assert h + EndText(e) + Terminated(lines, EndText(e)) + tail == h + EndText(e) + x;
    if lines != [] {
      LinesStart(lines, e, tail);
    } else if tail != [] {
      assert x == tail && x[0] != '\n';
    }
    DetectFirstLine(h, e, x);
    QueueOfLines(lines, e, tail);
  }

  /**
   * What a well-formed stream without VCF marker prints: the header and
   * then each listed line, in input order, each on a line of its own; the
   * run completes exactly when every line has a readable key, and otherwise
   * nothing but the header is sure to be printed.
   */
  lemma PlainStreamOutput(h: string, lines: seq<string>, e: LineEnding, tail: string, m: CoordinateMap, convert: bool)
    requires Detectable(e) && LineText(h) && !Contains(h, VCF_MARKER)
    requires AllLineText(lines) && LineText(tail)
    requires e == CR ==> lines != [] || tail != []
    ensures var run := FilterRun(h + EndText(e) + Terminated(lines, EndText(e)) + tail, m, convert);
            (run.status == Completed <==> Readable(lines, convert)) &&
            (run.status == Completed ==> run.out == [h] + Printed(Matching(lines, m, convert))) &&
            (run.status != Completed ==> run.out == [h])
  {
    PlainStream(h, lines, e, tail, m, convert);
    HitsAreMatching(lines, m, convert);
  }

  /** Each line ending gives the same output for the same lines. */
  lemma EndingsAgree(h: string, lines: seq<string>, tail: string, m: CoordinateMap, convert: bool)
    requires LineText(h) && !Contains(h, VCF_MARKER)
    requires AllLineText(lines) && LineText(tail)
    ensures FilterRun(h + "\n" + Terminated(lines, "\n") + tail, m, convert)
         == FilterRun(h + "\r\n" + Terminated(lines, "\r\n") + tail, m, convert)
    ensures lines != [] || tail != [] ==>
              (FilterRun(h + "\r" + Terminated(lines, "\r") + tail, m, convert)
               == FilterRun(h + "\n" + Terminated(lines, "\n") + tail, m, convert))
  {
    PlainStream(h, lines, LF, tail, m, convert);
    PlainStream(h, lines, CRLF, tail, m, convert);
    if lines != [] || tail != [] {
      PlainStream(h, lines, CR, tail, m, convert);
    }
  }

  lemma FlattenAppend(a: seq<string>, b: seq<string>)
    ensures Flatten(a + b) == Flatten(a) + Flatten(b)
    decreases |a|
  {
    if a != [] {
      FlattenAppend(a[1..], b);
      assert (a + b)[1..] == a[1..] + b;
    } else {
      assert a + b == b;
    }
  }

  /** Printing lines one Println each writes them terminated by '\n'. */
  lemma {:induction false} FlattenPrinted(lines: seq<string>)
    ensures Flatten(Printed(lines)) == Terminated(lines, "\n")
    decreases |lines|
  {
    if lines != [] {
      FlattenPrinted(lines[1..]);
      var p := Printed(lines);
      assert p == [lines[0] + "\n"] + Printed(lines[1..]);
      assert p[1..] == Printed(lines[1..]);
    }
  }

  /**
   * The printed header carries no terminator of its own, so the first
   * forwarded line continues the header's line of output.
   */
  lemma PlainStreamText(h: string, lines: seq<string>, e: LineEnding, tail: string, m: CoordinateMap, convert: bool)
    requires Detectable(e) && LineText(h) && !Contains(h, VCF_MARKER)
    requires AllLineText(lines) && LineText(tail) && Readable(lines, convert)
    requires e == CR ==> lines != [] || tail != []
    ensures Flatten(FilterRun(h + EndText(e) + Terminated(lines, EndText(e)) + tail, m, convert).out)
         == h + Terminated(Matching(lines, m, convert), "\n")
  {
    PlainStreamOutput(h, lines, e, tail, m, convert);
    var hits := Matching(lines, m, convert);
    FlattenAppend([h], Printed(hits));
    FlattenPrinted(hits);
    assert Flatten([h]) == h + Flatten([]);
  }

  /** A row of a VCF header before the column header: long enough for row[:6], and not "#CHROM". */
  predicate MetaRow(row: string, e: LineEnding)
  {
    LineText(row) && |row| + |EndText(e)| >= 6 && (row + EndText(e))[..6] != COLUMN_HEADER
  }

  /**
   * The VCF header loop takes every meta row and the column-header row
   * verbatim, terminators included, and leaves the reader right after the
   * column-header row.
   */
  lemma {:induction false} MetaBlockOfRows(metas: seq<string>, chrom: string, e: LineEnding, x: string)
    requires Detectable(e) && forall i :: 0 <= i < |metas| ==> MetaRow(metas[i], e)
    requires LineText(chrom) && HasPrefix(chrom, COLUMN_HEADER)
    ensures MetaBlock(Terminated(metas + [chrom], EndText(e)) + x, e.delim)
         == Ok(Header(Terminated(metas + [chrom], EndText(e)), x))
    decreases |metas|
  {
    var t := EndText(e);
    var rows := metas + [chrom];
    var later := Terminated(rows[1..], t);
    assert Terminated(rows, t) == rows[0] + t + later;
    ConcatAssociates(rows[0] + t, later, x);
    if metas == [] {
      assert rows[0] == chrom && rows[1..] == [];
      assert later == [] && later + x == x && rows[0] + t + later == chrom + t;
      ColumnHeaderRow(chrom, e, x);
    } else {
      assert rows[0] == metas[0] && rows[1..] == metas[1..] + [chrom];
      MetaBlockOfRows(metas[1..], chrom, e, x);
      assert MetaBlock(later + x, e.delim) == Ok(Header(later, x));
      MetaRowStep(metas[0], e, later + x);
    }
  }

  /** A meta row joins the header, terminator included, and the loop goes on after it. */
  lemma MetaRowStep(row: string, e: LineEnding, more: string)
    requires Detectable(e) && MetaRow(row, e)
    ensures MetaBlock(row + EndText(e) + more, e.delim) == After(row + EndText(e), MetaBlock(more, e.delim))
  {
    ReadRow(row, e, more);
    assert (row + EndText(e) + more)[|row + EndText(e)|..] == more;
  }

  /** The column-header row ends the header loop, the reader right after it. */
  lemma ColumnHeaderRow(chrom: string, e: LineEnding, more: string)
    requires Detectable(e) && LineText(chrom) && HasPrefix(chrom, COLUMN_HEADER)
    ensures MetaBlock(chrom + EndText(e) + more, e.delim) == Ok(Header(chrom + EndText(e), more))
  {
    var t := EndText(e);
    ReadRow(chrom, e, more);
    assert (chrom + t)[..6] == chrom[..6];
    assert (chrom + t + more)[|chrom + t|..] == more;
  }

  /** Without a column-header row the VCF header loop runs to the end of the stream. */
  lemma {:induction false} MetaBlockToEnd(metas: seq<string>, e: LineEnding, tail: string)
    requires Detectable(e) && forall i :: 0 <= i < |metas| ==> MetaRow(metas[i], e)
    requires LineText(tail)
    ensures MetaBlock(Terminated(metas, EndText(e)) + tail, e.delim) == Ok(Header(Terminated(metas, EndText(e)), []))
    decreases |metas|
  {
    var t := EndText(e);
    if metas == [] {
      NoDelimiter(tail, e);
      assert Terminated(metas, t) + tail == tail;
    } else {
      var later := Terminated(metas[1..], t) + tail;
      assert Terminated(metas, t) + tail == metas[0] + t + later;
      ReadRow(metas[0], e, later);
      assert (metas[0] + t + later)[|metas[0] + t|..] == later;
      MetaBlockToEnd(metas[1..], e, tail);
    }
  }

  /**
   * A VCF stream: the header is the first line without its terminator,
   * followed by the meta rows and the column-header row as they stand in
   * the input; only the lines after the column-header row are filtered.
   */
  lemma VcfStream(h: string, metas: seq<string>, chrom: string, lines: seq<string>, e: LineEnding, tail: string,
                  m: CoordinateMap, convert: bool)
    requires Detectable(e) && LineText(h) && Contains(h, VCF_MARKER)
    requires forall i :: 0 <= i < |metas| ==> MetaRow(metas[i], e)
    requires LineText(chrom) && HasPrefix(chrom, COLUMN_HEADER)
    requires AllLineText(lines) && LineText(tail)
    ensures var t := EndText(e);
            (FilterRun(h + t + Terminated(metas + [chrom], t) + Terminated(lines, t) + tail, m, convert)
             == Finish(h + Terminated(metas + [chrom], t), Hits(lines, m, convert)))
  {
    var t := EndText(e);
    var body := Terminated(lines, t) + tail;
    var x := Terminated(metas + [chrom], t) + body;
    var rows := metas + [chrom];
    ConcatAssociates(h + t + Terminated(rows, t), Terminated(lines, t), tail);
    ConcatAssociates(h + t, Terminated(rows, t), body);
    ConcatAssociates(rows[0] + t, Terminated(rows[1..], t), body);
    assert rows[0] != [] && x[0] == rows[0][0] by {
      if metas != [] {
        assert rows[0] == metas[0] && |metas[0]| + |t| >= 6;
      } else {
        assert rows[0] == chrom;
      }
    }
    DetectFirstLine(h, e, x);
    MetaBlockOfRows(metas, chrom, e, body);
    QueueOfLines(lines, e, tail);
  }

  /**
   * A VCF stream written with two different line endings: the header keeps
   * each ending verbatim, so the printed headers differ in their terminators
   * only, while the filtered lines and the way the run ends are the same.
   * Each meta row must pass the `row[:6]` test under both endings; a meta
   * row of four characters, say, passes it with "\r\n" but not with "\n".
   */
  lemma VcfEndingsAgree(h: string, metas: seq<string>, chrom: string, lines: seq<string>,
                        e1: LineEnding, e2: LineEnding, tail: string, m: CoordinateMap, convert: bool)
    requires Detectable(e1) && Detectable(e2) && LineText(h) && Contains(h, VCF_MARKER)
    requires forall i :: 0 <= i < |metas| ==> MetaRow(metas[i], e1) && MetaRow(metas[i], e2)
    requires LineText(chrom) && HasPrefix(chrom, COLUMN_HEADER)
    requires AllLineText(lines) && LineText(tail)
    ensures var t1, t2 := EndText(e1), EndText(e2);
            var a := FilterRun(h + t1 + Terminated(metas + [chrom], t1) + Terminated(lines, t1) + tail, m, convert);
            var b := FilterRun(h + t2 + Terminated(metas + [chrom], t2) + Terminated(lines, t2) + tail, m, convert);
            a.status == b.status && |a.out| == |b.out| >= 1 && a.out[1..] == b.out[1..] &&
            a.out[0] == h + Terminated(metas + [chrom], t1) && b.out[0] == h + Terminated(metas + [chrom], t2)
  {
    var rows := metas + [chrom];
    assert forall i :: 0 <= i < |metas| ==> MetaRow(metas[i], e1);
    VcfStream(h, metas, chrom, lines, e1, tail, m, convert);
    assert forall i :: 0 <= i < |metas| ==> MetaRow(metas[i], e2);
    VcfStream(h, metas, chrom, lines, e2, tail, m, convert);
    FinishAgree(h + Terminated(rows, EndText(e1)), h + Terminated(rows, EndText(e2)), Hits(lines, m, convert));
  }

  /** A four-character meta row passes the `row[:6]` test with "\r\n" but not with "\n". */
  lemma ShortMetaRowEndings(row: string)
    requires |row| == 4 && LineText(row)
    ensures MetaRow(row, CRLF) && !MetaRow(row, LF)
  {
    assert (row + EndText(CRLF))[5] == '\n' != COLUMN_HEADER[5];
  }

  /** Two runs that filter the same way differ only in the header they print first. */
  lemma FinishAgree(x: string, y: string, hits: Result<seq<string>>)
    ensures var a, b := Finish(x, hits), Finish(y, hits);
            a.status == b.status && |a.out| == |b.out| >= 1 && a.out[1..] == b.out[1..] &&
            a.out[0] == x && b.out[0] == y
  {
    if hits.Ok? {
      assert ([x] + Printed(hits.value))[1..] == Printed(hits.value);
      assert ([y] + Printed(hits.value))[1..] == Printed(hits.value);
    }
  }

  /** A header that takes the whole stream leaves the producer nothing to queue. */
  lemma HeaderToEnd(data: string, det: Detection, text: string, m: CoordinateMap, convert: bool)
    requires FindEndOfLine(data, "") == Ok(det) && HeaderOf(det) == Ok(Header(text, []))
    ensures FilterRun(data, m, convert) == Run([text], Completed)
  {
    assert Chunks([], det.ending.delim, det.ending.width) == Ok([]);
    assert Hits([], m, convert) == Ok([]);
    assert [text] + Printed([]) == [text];
  }

  /** Meta rows followed by their terminators do not begin with '\n'. */
  lemma MetasStart(metas: seq<string>, e: LineEnding, tail: string)
    requires Detectable(e) && metas != [] && MetaRow(metas[0], e)
    ensures var x := Terminated(metas, EndText(e)) + tail; x != [] && x[0] != '\n'
  {
    var t := EndText(e);
    var x := Terminated(metas, t) + tail;
    assert x == metas[0] + t + (Terminated(metas[1..], t) + tail);
    assert x[0] == metas[0][0];
  }

  /** A VCF stream without a column-header row prints its whole header and filters nothing. */
  lemma VcfWithoutColumnHeader(h: string, metas: seq<string>, e: LineEnding, tail: string, m: CoordinateMap, convert: bool)
    requires Detectable(e) && LineText(h) && Contains(h, VCF_MARKER)
    requires forall i :: 0 <= i < |metas| ==> MetaRow(metas[i], e)
    requires LineText(tail)
    requires e == CR ==> metas != [] || tail != []
    ensures var t := EndText(e);
            FilterRun(h + t + Terminated(metas, t) + tail, m, convert) == Run([h + Terminated(metas, t)], Completed)
  {
    var t := EndText(e);
    var x := Terminated(metas, t) + tail;
    var data := h + t + Terminated(metas, t) + tail;
    assert data == h + t + x;
    if metas != [] {
      MetasStart(metas, e, tail);
    } else if tail != [] {
      assert x == tail && x[0] != '\n';
    }
    DetectFirstLine(h, e, x);
    MetaBlockToEnd(metas, e, tail);
    HeaderToEnd(data, Detection(e, h, x), h + Terminated(metas, t), m, convert);
  }

  /** A blank row inside a VCF header panics on row[:6] before anything is printed. */
  lemma BlankHeaderRowAborts(h: string, e: LineEnding, x: string, m: CoordinateMap, convert: bool)
    requires Detectable(e) && LineText(h) && Contains(h, VCF_MARKER)
    ensures FilterRun(h + EndText(e) + EndText(e) + x, m, convert) == Run([], Aborted(SliceOutOfRange))
  {
    var t := EndText(e);
    var y := t + x;
    ConcatAssociates(h + t, t, x);
    assert y[0] == t[0];
    DetectFirstLine(h, e, y);
    BlankMetaRow(e, x);
  }

  /** A meta-information row that is only a line ending is shorter than "#CHROM". */
  lemma BlankMetaRow(e: LineEnding, x: string)
    requires Detectable(e)
    ensures MetaBlock(EndText(e) + x, e.delim) == Err(SliceOutOfRange)
  {
    ReadRow([], e, x);
    assert [] + EndText(e) + x == EndText(e) + x;
  }

  /**
   * A stream with no line terminator, or whose only one is a final '\r',
   * ends the run before anything is printed; so does an empty stream.
   */
  lemma UndetectedEndingAborts(h: string, m: CoordinateMap, convert: bool)
    requires LineText(h)
    ensures FilterRun(h, m, convert) == Run([], Aborted(StreamEnded))
    ensures FilterRun(h + "\r", m, convert) == Run([], Aborted(StreamEnded))
  {
    DetectFails(h);
  }

  /**
   * A data line passes exactly when its key reads and equals the key of
   * some line of the coordinate file the map was built from.
   */
  lemma ForwardedIffListed(bedLines: seq<string>, m: CoordinateMap, cfg: Config, line: string)
    requires Coordinates.Build(bedLines, map[], cfg) == Ok(m)
    ensures Classify(line, m, cfg.ucscChr) == Ok(true) <==>
              DataKey(line, cfg.ucscChr).Ok? &&
              exists j :: 0 <= j < |bedLines| && BedKey(bedLines[j], cfg) == DataKey(line, cfg.ucscChr)
  {
    Coordinates.BuildListed(bedLines, map[], cfg);
  }

  /**
   * The whole program on a coordinate file of complete lines: the data
   * stream is filtered against the map those lines build, and a bad
   * coordinate line ends the run before the data stream is read.
   */
  lemma ProgramRun(bedLines: seq<string>, bedTail: string, data: string, cfg: Config)
    requires forall i :: 0 <= i < |bedLines| ==> '\n' !in bedLines[i]
    requires '\n' !in bedTail
    ensures var built := Coordinates.Build(bedLines, map[], cfg);
            (FilterFiles(Terminated(bedLines, "\n") + bedTail, data, cfg)
             == if built.Ok? then FilterRun(data, built.value, cfg.ucscChr) else Run([], Aborted(built.error)))
  {
    Coordinates.CoordinatesOfLines(bedLines, bedTail, cfg);
  }
}
