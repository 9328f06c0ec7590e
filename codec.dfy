/**
 * The record codec shared by the coordinate-file reader (readBed) and the
 * data-line workers (processLine): split a line on tabs, read the position
 * field with strconv.Atoi, and apply the optional "chr" conversion to the
 * chromosome field.
 */
module Codec {
  import opened Outcomes
  import opened Text
  import opened Decimal

  const TAB: char := '\t'

  /** A (chromosome, position) pair as the filter compares them. */
  datatype Key = Key(chr: string, pos: int)

  /** The settings the codec reads from the program's Config. */
  datatype Config = Config(ucscChr: bool, chrIdx: int, posIdx: int)

  /** Chromosome name to the set of listed positions (map[string]map[int]bool in the program). */
  type CoordinateMap = map<string, set<int>>

  /** posMap[chr][pos]: a chromosome the map lacks answers false. */
  predicate Listed(m: CoordinateMap, k: Key)
  {
    k.chr in m && k.pos in m[k.chr]
  }

  /**
   * The ucscChr conversion: "chr" goes in front of a name unless the name
   * is at least four characters long and already begins with "chr". The
   * result always begins with "chr" and ends with the name it was given.
   */
  function UcscName(name: string, convert: bool): (r: string)
    ensures convert ==> HasPrefix(r, "chr")
    ensures HasSuffix(r, name)
    ensures r == name <==> !convert || (|name| >= 4 && HasPrefix(name, "chr"))
    ensures r == name || r == "chr" + name
  {
    if convert && (|name| < 4 || name[..3] != "chr") then "chr" + name else name
  }

  /** Converting twice is converting once, for every name but the empty one. */
  lemma UcscNameIdempotent(name: string)
    requires name != ""
    ensures UcscName(UcscName(name, true), true) == UcscName(name, true)
  {
  }

  /** The examples the conversion rule decides: "1", "chr1", "chr" and "". */
  lemma UcscNameExamples()
    ensures UcscName("1", true) == "chr1"
    ensures UcscName("chr1", true) == "chr1"
    ensures UcscName("chr", true) == "chrchr"
    ensures UcscName(UcscName("", true), true) == "chrchr" != UcscName("", true)
  {
    assert "chr1"[..3] == "chr";
    assert "chr"[..3] == "chr";
  }

  /**
   * One coordinate-file line, its '\n' already cut off: the position from
   * field posIdx, then the (converted) chromosome from field chrIdx. Either
   * index outside the fields panics; an unreadable position is fatal.
   */
  function BedKey(line: string, cfg: Config): Result<Key>
  {
    var record := Split(line, TAB);
    if !(0 <= cfg.posIdx < |record|) then Err(IndexOutOfRange)
    else match Atoi(record[cfg.posIdx])
      case None => Err(BadPosition(record))
      case Some(pos) =>
        if !(0 <= cfg.chrIdx < |record|) then Err(IndexOutOfRange)
        else Ok(Key(UcscName(record[cfg.chrIdx], cfg.ucscChr), pos))
  }

  /**
   * How reading a coordinate line ends: an index panic exactly when posIdx
   * is outside the fields, or chrIdx is and the position reads; a fatal
   * position exactly when field posIdx exists and Atoi rejects it; a key
   * exactly when both fields exist and the position reads, and then the key
   * is the converted field chrIdx with the 64-bit value of field posIdx.
   */
  lemma BedKeyOutcomes(line: string, cfg: Config)
    ensures var record, r := Split(line, TAB), BedKey(line, cfg);
            (r == Err(IndexOutOfRange) <==>
               !(0 <= cfg.posIdx < |record|) ||
               (Atoi(record[cfg.posIdx]).Some? && !(0 <= cfg.chrIdx < |record|))) &&
            ((r.Err? && r.error.BadPosition?) <==>
               0 <= cfg.posIdx < |record| && Atoi(record[cfg.posIdx]).None?) &&
            (r.Ok? <==> 0 <= cfg.posIdx < |record| && Atoi(record[cfg.posIdx]).Some? &&
                        0 <= cfg.chrIdx < |record|) &&
            (r.Ok? ==> MIN_INT <= r.value.pos <= MAX_INT &&
                       r.value.chr == UcscName(record[cfg.chrIdx], cfg.ucscChr) &&
                       Atoi(record[cfg.posIdx]) == Some(r.value.pos))
  {
  }

  /**
   * A data line as a worker reads it: chromosome from field 0, position
   * from field 1. A line without a tab has no field 1 and panics.
   */
  function DataKey(line: string, convert: bool): (r: Result<Key>)
    ensures r == Err(IndexOutOfRange) <==> TAB !in line
  {
    var record := Split(line, TAB);
    if |record| < 2 then Err(IndexOutOfRange)
    else match Atoi(record[1])
      case None => Err(BadPosition(record))
      case Some(pos) => Ok(Key(UcscName(record[0], convert), pos))
  }

  /**
   * How reading a data line ends: an index panic exactly when the line has
   * no tab, a fatal position exactly when field 1 exists and Atoi rejects
   * it, and otherwise the converted field 0 with the value Atoi reads from
   * field 1.
   */
  lemma DataKeyOutcomes(line: string, convert: bool)
    ensures var record, r := Split(line, TAB), DataKey(line, convert);
            (r == Err(IndexOutOfRange) <==> |record| < 2) &&
            ((r.Err? && r.error.BadPosition?) <==> |record| >= 2 && Atoi(record[1]).None?) &&
            (r.Ok? <==> |record| >= 2 && Atoi(record[1]).Some?) &&
            (r.Ok? ==> r.value == Key(UcscName(record[0], convert), Atoi(record[1]).value))
  {
  }

  /** A worker's verdict on one line: is its key listed in the coordinate set? */
  function Classify(line: string, m: CoordinateMap, convert: bool): (r: Result<bool>)
    ensures r.Ok? <==> DataKey(line, convert).Ok?
    ensures r.Ok? ==> (r.value <==> Listed(m, DataKey(line, convert).value))
  {
    match DataKey(line, convert)
    case Err(e) => Err(e)
    case Ok(k) => Ok(Listed(m, k))
  }

  /**
   * The hit rule on a data line's fields: a line of chromosome, canonical
   * position and further tab-free fields is a hit exactly when the converted
   * chromosome is in the map and its set holds the position.
   */
  lemma ClassifyFields(chr: string, pos: int, more: seq<string>, m: CoordinateMap, convert: bool)
    requires TAB !in chr && forall i :: 0 <= i < |more| ==> TAB !in more[i]
    requires MIN_INT <= pos <= MAX_INT
    ensures Classify(Join([chr, Itoa(pos)] + more, TAB), m, convert)
         == Ok(UcscName(chr, convert) in m && pos in m[UcscName(chr, convert)])
  {
    DataKeyOfFields(chr, pos, more, convert);
  }

  /**
   * A data line whose field 1 Atoi rejects, such as "1\tNOTANUMBER\textra",
   * makes the worker fail on it, whatever the map holds.
   */
  lemma ClassifyUnreadable(fields: seq<string>, m: CoordinateMap, convert: bool)
    requires |fields| >= 2 && forall i :: 0 <= i < |fields| ==> TAB !in fields[i]
    requires Atoi(fields[1]).None?
    ensures Classify(Join(fields, TAB), m, convert) == Err(BadPosition(fields))
  {
    SplitJoin(fields, TAB);
  }

  /** Fields written out with tabs and a canonical position are read back as written. */
  lemma BedKeyOfFields(fields: seq<string>, cfg: Config, pos: int)
    requires forall i :: 0 <= i < |fields| ==> TAB !in fields[i]
    requires 0 <= cfg.posIdx < |fields| && 0 <= cfg.chrIdx < |fields|
    requires MIN_INT <= pos <= MAX_INT && fields[cfg.posIdx] == Itoa(pos)
    ensures BedKey(Join(fields, TAB), cfg) == Ok(Key(UcscName(fields[cfg.chrIdx], cfg.ucscChr), pos))
  {
    SplitJoin(fields, TAB);
    AtoiItoa(pos);
  }

  /** The same for a data line: chromosome, position, then any further fields. */
  lemma DataKeyOfFields(chr: string, pos: int, more: seq<string>, convert: bool)
    requires TAB !in chr && forall i :: 0 <= i < |more| ==> TAB !in more[i]
    requires MIN_INT <= pos <= MAX_INT
    ensures DataKey(Join([chr, Itoa(pos)] + more, TAB), convert) == Ok(Key(UcscName(chr, convert), pos))
  {
    var fields := [chr, Itoa(pos)] + more;
    ItoaHasNoTab(pos);
    forall i | 0 <= i < |fields| ensures TAB !in fields[i] {
      if i >= 2 {
        assert fields[i] == more[i - 2];
      }
    }
    SplitJoin(fields, TAB);
    AtoiItoa(pos);
  }

  lemma ItoaHasNoTab(n: int)
    ensures TAB !in Itoa(n)
  {
    var ds := if n < 0 then Digits(-n) else Digits(n);
    assert TAB !in ds by {
      forall i | 0 <= i < |ds| ensures ds[i] != TAB {
        assert IsDigit(ds[i]);
      }
    }
    if n < 0 {
      assert Itoa(n) == "-" + ds;
    }
  }

  /**
   * A blank coordinate line is not skipped: it has one empty field, so a
   * position index past 0 panics, and position index 0 reads "" and fails.
   */
  lemma BlankBedLineFails(cfg: Config)
    ensures BedKey("", cfg).Err?
    ensures cfg.posIdx != 0 ==> BedKey("", cfg) == Err(IndexOutOfRange)
  {
    assert Split("", TAB) == [""];
    AtoiNeedsDigits("");
  }

  /** A '\r' left in front of the cut-off '\n' stays in the line's last field. */
  lemma CarriageReturnInLastField(fields: seq<string>)
    requires |fields| >= 1
    requires forall i :: 0 <= i < |fields| ==> TAB !in fields[i]
    ensures Split(Join(fields, TAB) + "\r", TAB)
         == fields[..|fields| - 1] + [fields[|fields| - 1] + "\r"]
  {
    var n := |fields|;
    var lastField := fields[n - 1] + "\r";
    var g := fields[..n - 1] + [lastField];
    JoinAppendLast(fields, "\r");
    assert TAB !in lastField by {
      forall j | 0 <= j < |lastField| ensures lastField[j] != TAB {
        if j < |fields[n - 1]| {
          assert lastField[j] == fields[n - 1][j];
        }
      }
    }
    forall i | 0 <= i < |g| ensures TAB !in g[i] {
      if i < n - 1 {
        assert g[i] == fields[i];
      }
    }
    SplitJoin(g, TAB);
  }

  lemma {:induction false} JoinAppendLast(fields: seq<string>, x: string)
    requires |fields| >= 1
    ensures Join(fields[..|fields| - 1] + [fields[|fields| - 1] + x], TAB) == Join(fields, TAB) + x
    decreases |fields|
  {
    if |fields| > 1 {
      JoinAppendLast(fields[1..], x);
      var g := fields[..|fields| - 1] + [fields[|fields| - 1] + x];
      assert g[1..] == fields[1..][..|fields[1..]| - 1] + [fields[1..][|fields[1..]| - 1] + x];
    }
  }

  /**
   * A coordinate file with "\r\n" endings whose position is the last column
   * aborts the run: the position field keeps the '\r' and Atoi rejects it.
   */
  lemma CrlfLastColumnPositionFails(fields: seq<string>, cfg: Config)
    requires |fields| >= 1 && cfg.posIdx == |fields| - 1
    requires forall i :: 0 <= i < |fields| ==> TAB !in fields[i]
    ensures BedKey(Join(fields, TAB) + "\r", cfg).Err?
  {
    CarriageReturnInLastField(fields);
    var field := fields[|fields| - 1] + "\r";
    AtoiRejectsStray(field, |field| - 1);
  }
}
