/**
 * The pieces of Go's standard library the filter's text handling rests on:
 * strings.Split and strings.Join on one separator, a literal-pattern
 * regexp match, and bufio.Reader.ReadString. A reader is modelled by the
 * input that is still unread, which each read shortens.
 */
module Text {
  import opened Outcomes

  predicate HasPrefix(s: string, p: string)
  {
    |p| <= |s| && s[..|p|] == p
  }

  predicate HasSuffix(s: string, p: string)
  {
    |p| <= |s| && s[|s| - |p|..] == p
  }

  /**
   * Whether `p` occurs in `s`: what regexp.MatchString answers for a pattern
   * made only of literal characters, as "##fileformat=VCF" and "-posIdx" are.
   */
  function Contains(s: string, p: string): bool
    decreases |s|
  {
    if HasPrefix(s, p) then true
    else if s == [] then false
    else Contains(s[1..], p)
  }

  lemma {:induction false} ContainsIff(s: string, p: string)
    ensures Contains(s, p) <==> exists i :: 0 <= i <= |s| && HasPrefix(s[i..], p)
    decreases |s|
  {
    if HasPrefix(s, p) {
      assert s[0..] == s;
    } else if s == [] {
      forall i | 0 <= i <= |s| ensures !HasPrefix(s[i..], p) {
        assert s[i..] == s;
      }
    } else {
      ContainsIff(s[1..], p);
      if Contains(s, p) {
        var i :| 0 <= i <= |s[1..]| && HasPrefix(s[1..][i..], p);
        assert s[1..][i..] == s[i + 1..];
      } else {
        forall i | 0 <= i <= |s| ensures !HasPrefix(s[i..], p) {
          if i == 0 {
            assert s[0..] == s;
          } else {
            assert s[1..][i - 1..] == s[i..];
          }
        }
      }
    }
  }

  /**
   * strings.Split(s, sep) for a one-character separator: the text between
   * separators, always at least one field (Split("") is [""]).
   */
  function Split(s: string, sep: char): (fields: seq<string>)
    ensures |fields| >= 1
    ensures forall i :: 0 <= i < |fields| ==> sep !in fields[i]
    ensures |fields| == 1 <==> sep !in s
    decreases |s|
  {
    if s == [] then [[]]
    else
      var rest := Split(s[1..], sep);
      assert s == [s[0]] + s[1..];
      if s[0] == sep then [[]] + rest
      else
        assert sep in s <==> sep in s[1..];
        assert sep !in [s[0]] + rest[0];
        [[s[0]] + rest[0]] + rest[1..]
  }

  /** strings.Join(fields, sep): the fields with one separator between neighbours. */
  function Join(fields: seq<string>, sep: char): string
    decreases |fields|
  {
    if |fields| == 0 then []
    else if |fields| == 1 then fields[0]
    else fields[0] + [sep] + Join(fields[1..], sep)
  }

  /** Splitting loses nothing: joining the fields again gives back the text. */
  lemma {:induction false} JoinSplit(s: string, sep: char)
    ensures Join(Split(s, sep), sep) == s
    decreases |s|
  {
    if s != [] {
      var rest := Split(s[1..], sep);
      JoinSplit(s[1..], sep);
      assert s == [s[0]] + s[1..];
      if s[0] == sep {
        JoinEmptyFront(rest, sep);
      } else {
        JoinCharFront(s[0], rest, sep);
      }
    }
  }

  /** An empty first field puts a bare separator in front of the rest. */
  lemma JoinEmptyFront(rest: seq<string>, sep: char)
    requires |rest| >= 1
    ensures Join([[]] + rest, sep) == [sep] + Join(rest, sep)
  {
    assert ([[]] + rest)[1..] == rest;
  }

  /** A character in front of the first field stands in front of the joined text. */
  lemma JoinCharFront(c: char, rest: seq<string>, sep: char)
    requires |rest| >= 1
    ensures Join([[c] + rest[0]] + rest[1..], sep) == [c] + Join(rest, sep)
  {
    var fields := [[c] + rest[0]] + rest[1..];
    assert fields[1..] == rest[1..];
    if |rest| > 1 {
      ConcatAssociates([c] + rest[0], [sep], Join(rest[1..], sep));
      ConcatAssociates([c], rest[0], [sep] + Join(rest[1..], sep));
      ConcatAssociates(rest[0], [sep], Join(rest[1..], sep));
    }
  }

  /** One non-separator character in front of `s` joins the first field of `s`. */
  lemma SplitCons(c: char, s: string, sep: char)
    requires c != sep
    ensures Split([c] + s, sep) == [[c] + Split(s, sep)[0]] + Split(s, sep)[1..]
  {
    assert ([c] + s)[1..] == s;
  }

  lemma ConcatAssociates<T>(x: seq<T>, y: seq<T>, z: seq<T>)
    ensures x + (y + z) == x + y + z
  {
  }

  /** Text without a separator in front of `t` only lengthens the first field of `t`. */
  lemma {:induction false} SplitAfterText(a: string, t: string, sep: char)
    requires sep !in a
    ensures Split(a + t, sep) == [a + Split(t, sep)[0]] + Split(t, sep)[1..]
    decreases |a|
  {
    var f := Split(t, sep);
    if a == [] {
      assert a + t == t;
      assert a + f[0] == f[0];
      assert [f[0]] + f[1..] == f;
    } else {
      var u := a[1..] + t;
      var g := Split(u, sep);
      SplitAfterText(a[1..], t, sep);
      assert g[0] == a[1..] + f[0] && g[1..] == f[1..];
      assert a == [a[0]] + a[1..];
      ConcatAssociates([a[0]], a[1..], t);
      SplitCons(a[0], u, sep);
      ConcatAssociates([a[0]], a[1..], f[0]);
    }
  }

  lemma SplitAtSeparator(a: string, t: string, sep: char)
    requires sep !in a
    ensures Split(a + [sep] + t, sep) == [a] + Split(t, sep)
  {
    SplitAfterText(a, [sep] + t, sep);
    assert a + [sep] + t == a + ([sep] + t);
    assert ([sep] + t)[1..] == t;
    assert a + [] == a;
  }

  /** Joining fields that hold no separator and splitting again gives back the fields. */
  lemma {:induction false} SplitJoin(fields: seq<string>, sep: char)
    requires |fields| >= 1
    requires forall i :: 0 <= i < |fields| ==> sep !in fields[i]
    ensures Split(Join(fields, sep), sep) == fields
    decreases |fields|
  {
    if |fields| == 1 {
      SplitAfterText(fields[0], [], sep);
      assert fields[0] + [] == fields[0];
    } else {
      SplitJoin(fields[1..], sep);
      SplitAtSeparator(fields[0], Join(fields[1..], sep), sep);
      assert [fields[0]] + fields[1..] == fields;
    }
  }

  /**
   * What one call of bufio.Reader.ReadString(d) returns when `rest` is what
   * the reader has not yet delivered: the text through the first `d`, the
   * delimiter included; or, together with io.EOF, everything that is left.
   */
  datatype Read = Row(text: string) | Eof(partial: string)

  function ReadString(rest: string, d: char): (r: Read)
    ensures r.Row? ==> 1 <= |r.text| <= |rest| && r.text == rest[..|r.text|]
    ensures r.Row? ==> r.text[|r.text| - 1] == d && d !in r.text[..|r.text| - 1]
    ensures r.Eof? ==> r.partial == rest && d !in rest
    decreases |rest|
  {
    if rest == [] then Eof([])
    else if rest[0] == d then Row([d])
    else
      assert rest == [rest[0]] + rest[1..];
      match ReadString(rest[1..], d)
      case Row(t) =>
        assert ([rest[0]] + t)[..|t|] == [rest[0]] + t[..|t| - 1];
        Row([rest[0]] + t)
      case Eof(p) => Eof([rest[0]] + p)
  }

  /** A row is delivered through its delimiter and no further. */
  lemma ReadStringAt(a: string, d: char, rest: string)
    requires d !in a
    ensures ReadString(a + [d] + rest, d) == Row(a + [d])
  {
    var s := a + [d] + rest;
    assert s[|a|] == d;
    assert forall j :: 0 <= j < |a| ==> s[j] == a[j] != d;
    var t := ReadString(s, d).text;
    assert forall j :: 0 <= j < |t| - 1 ==> s[j] == t[..|t| - 1][j];
    assert s[..|a| + 1] == a + [d];
  }

  /**
   * The rows a loop of ReadString(d) calls delivers before end of stream,
   * each with its last `width` characters sliced off, in input order; what
   * follows the last delimiter is never delivered. A row shorter than
   * `width` makes the slice panic.
   */
  function Chunks(rest: string, d: char, width: nat): Result<seq<string>>
    decreases |rest|
  {
    match ReadString(rest, d)
    case Eof(_) => Ok([])
    case Row(row) =>
      if |row| < width then Err(SliceOutOfRange)
      else Extend([row[..|row| - width]], Chunks(rest[|row|..], d, width))
  }

  /** Each line followed by the terminator text `t`. */
  function Terminated(lines: seq<string>, t: string): string
    decreases |lines|
  {
    if lines == [] then [] else lines[0] + t + Terminated(lines[1..], t)
  }

  /**
   * Cutting a stream of terminated lines at the terminator's last character
   * and slicing off the terminator's width gives back the lines; text after
   * the last terminator is dropped.
   */
  lemma {:induction false} ChunksOfTerminated(lines: seq<string>, t: string, tail: string, d: char)
    requires |t| >= 1 && t[|t| - 1] == d && d !in t[..|t| - 1]
    requires forall i :: 0 <= i < |lines| ==> d !in lines[i]
    requires d !in tail
    ensures Chunks(Terminated(lines, t) + tail, d, |t|) == Ok(lines)
    decreases |lines|
  {
    if lines == [] {
      assert Terminated(lines, t) + tail == tail;
    } else {
      var rest := Terminated(lines[1..], t) + tail;
      ConcatAssociates(lines[0] + t, Terminated(lines[1..], t), tail);
      ChunkOfLine(lines[0], t, rest, d);
      ChunksOfTerminated(lines[1..], t, tail, d);
      assert [lines[0]] + lines[1..] == lines;
    }
  }

  /** A line without `d` and its terminator is delivered as the next chunk. */
  lemma ChunkOfLine(l: string, t: string, rest: string, d: char)
    requires |t| >= 1 && t[|t| - 1] == d && d !in t[..|t| - 1]
    requires d !in l
    ensures Chunks(l + t + rest, d, |t|) == Extend([l], Chunks(rest, d, |t|))
  {
    var a := l + t[..|t| - 1];
    forall k | 0 <= k < |a| ensures a[k] != d {
      if k < |l| {
        assert a[k] == l[k];
      } else {
        assert a[k] == t[..|t| - 1][k - |l|];
      }
    }
    assert l + t == a + [d];
    ReadStringAt(a, d, rest);
    var row := a + [d];
    assert (a + [d] + rest)[|row|..] == rest;
    assert row[..|row| - |t|] == l;
  }

  /**
   * With width 1 the delivered rows are exactly the fields strings.Split
   * finds, less the last one (the unterminated remainder).
   */
  lemma {:induction false} ChunksAreSplitFields(s: string, d: char)
    ensures Chunks(s, d, 1) == Ok(Split(s, d)[..|Split(s, d)| - 1])
    decreases |s|
  {
    if ReadString(s, d).Row? {
      var rest := s[|ReadString(s, d).text|..];
      ChunksAreSplitFields(rest, d);
      RowIsFirstField(s, d);
    } else {
      assert |Split(s, d)| == 1;
    }
  }

  /**
   * A delivered row, less its delimiter, is the first field strings.Split
   * finds: if the rest of the input keeps chunks and fields in step, so
   * does the whole.
   */
  lemma RowIsFirstField(s: string, d: char)
    requires ReadString(s, d).Row?
    requires var rest := s[|ReadString(s, d).text|..];
             Chunks(rest, d, 1) == Ok(Split(rest, d)[..|Split(rest, d)| - 1])
    ensures Chunks(s, d, 1) == Ok(Split(s, d)[..|Split(s, d)| - 1])
  {
    var row := ReadString(s, d).text;
    var x := row[..|row| - 1];
    var f := Split(s[|row|..], d);
    SplitRow(s, d);
    assert Chunks(s, d, 1) == Extend([x], Ok(f[..|f| - 1]));
    AllButLast(x, f);
  }

  /** strings.Split cuts the same first field that ReadString delivers. */
  lemma SplitRow(s: string, d: char)
    requires ReadString(s, d).Row?
    ensures var row := ReadString(s, d).text;
            Split(s, d) == [row[..|row| - 1]] + Split(s[|row|..], d)
  {
    var row := ReadString(s, d).text;
    var rest := s[|row|..];
    RowHead(s, row, rest);
    EndsWith(row, d);
    SplitAtSeparator(row[..|row| - 1], rest, d);
  }

  /** A text is its prefix `row` followed by what comes after it. */
  lemma RowHead(s: string, row: string, rest: string)
    requires |row| <= |s| && row == s[..|row|] && rest == s[|row|..]
    ensures s == row + rest
  {
  }

  /** A row is its text before the last character, then that character. */
  lemma EndsWith(row: string, d: char)
    requires |row| >= 1 && row[|row| - 1] == d
    ensures row == row[..|row| - 1] + [d]
  {
  }

  lemma AllButLast<T>(x: T, f: seq<T>)
    requires |f| >= 1
    ensures ([x] + f)[..|f|] == [x] + f[..|f| - 1]
  {
  }
}
