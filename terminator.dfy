/**
 * Line-terminator detection (findEndOfLineChar): read the data stream one
 * character at a time until the first '\r' or '\n', decide which of "\n",
 * "\r\n" or a bare "\r" ends its lines, and hand back the text read before
 * the terminator as the first header line.
 */
module Terminator {
  import opened Outcomes
  import opened Text

  /**
   * A stream's line ending: the byte ReadString splits the rest of the
   * stream on, and how many characters the producer cuts off each row.
   */
  datatype LineEnding = LineEnding(delim: char, width: nat)

  const LF: LineEnding := LineEnding('\n', 1)
  const CRLF: LineEnding := LineEnding('\n', 2)
  const CR: LineEnding := LineEnding('\r', 1)

  /** The characters that end a line under each detected ending. */
  function EndText(e: LineEnding): string
  {
    if e == CRLF then "\r\n" else [e.delim]
  }

  /** Detection's result: the ending, the first line's text, and the reader after the terminator. */
  datatype Detection = Detection(ending: LineEnding, header: string, rest: string)

  /** Text with no line terminator character in it. */
  predicate LineText(s: string)
  {
    forall i :: 0 <= i < |s| ==> s[i] != '\r' && s[i] != '\n'
  }

  /**
   * findEndOfLineChar(r, acc) with `rest` the unread input: ReadRune at end
   * of stream fails, and so does Peek after a '\r' that is the last
   * character; the text gathered so far is then discarded.
   */
  function FindEndOfLine(rest: string, acc: string): (r: Result<Detection>)
    ensures r.Ok? ==> r.value.ending in {LF, CRLF, CR} && |r.value.rest| < |rest|
    ensures r.Err? ==> r.error == StreamEnded
    decreases |rest|
  {
    if rest == [] then Err(StreamEnded)
    else if rest[0] == '\r' then
      if |rest| == 1 then Err(StreamEnded)
      else if rest[1] == '\n' then Ok(Detection(CRLF, acc, rest[2..]))
      else Ok(Detection(CR, acc, rest[1..]))
    else if rest[0] == '\n' then Ok(Detection(LF, acc, rest[1..]))
    else FindEndOfLine(rest[1..], acc + [rest[0]])
  }

  /** Text with no terminator in it is read one character at a time into the accumulator. */
  lemma {:induction false} SkipLineText(h: string, x: string, acc: string)
    requires LineText(h)
    ensures FindEndOfLine(h + x, acc) == FindEndOfLine(x, acc + h)
    decreases |h|
  {
    if h != [] {
      var s := h + x;
      assert s[0] == h[0] && s[0] != '\r' && s[0] != '\n';
      assert s[1..] == h[1..] + x;
      assert FindEndOfLine(s, acc) == FindEndOfLine(s[1..], acc + [h[0]]);
      assert acc + [h[0]] + h[1..] == acc + h;
      SkipLineText(h[1..], x, acc + [h[0]]);
    } else {
      assert h + x == x && acc + h == acc;
    }
  }

  /** A '\n' first: "\n" endings, and the header is the text before it. */
  lemma DetectLF(h: string, x: string)
    requires LineText(h)
    ensures FindEndOfLine(h + "\n" + x, "") == Ok(Detection(LF, h, x))
  {
    var t := "\n" + x;
    SkipLineText(h, t, "");
    assert h + "\n" + x == h + t;
    assert t[0] == '\n' && t[1..] == x;
    assert "" + h == h;
  }

  /** "\r\n" first: "\r\n" endings, both characters consumed. */
  lemma DetectCRLF(h: string, x: string)
    requires LineText(h)
    ensures FindEndOfLine(h + "\r\n" + x, "") == Ok(Detection(CRLF, h, x))
  {
    var t := "\r\n" + x;
    SkipLineText(h, t, "");
    assert h + "\r\n" + x == h + t;
    assert t[0] == '\r' && t[1] == '\n' && t[2..] == x;
    assert "" + h == h;
  }

  /** A '\r' followed by anything but '\n': bare '\r' endings, and that next character is left unread. */
  lemma DetectCR(h: string, c: char, x: string)
    requires LineText(h) && c != '\n'
    ensures FindEndOfLine(h + "\r" + [c] + x, "") == Ok(Detection(CR, h, [c] + x))
  {
    var t := "\r" + [c] + x;
    SkipLineText(h, t, "");
    assert h + "\r" + [c] + x == h + t;
    assert t[0] == '\r' && t[1] == c && t[1..] == [c] + x;
    assert "" + h == h;
  }

  /**
   * Detection fails, and the text read is lost, when the stream has no
   * terminator at all or its only one is a '\r' in the last position.
   */
  lemma DetectFails(h: string)
    requires LineText(h)
    ensures FindEndOfLine(h, "") == Err(StreamEnded)
    ensures FindEndOfLine(h + "\r", "") == Err(StreamEnded)
  {
    SkipLineText(h, "", "");
    assert h + "" == h;
    SkipLineText(h, "\r", "");
  }
}
