/**
 * The coordinate set (readBed): every '\n'-terminated line of the
 * coordinate file adds its (chromosome, position) pair to a map from
 * chromosome to positions. The map is only ever added to, and it is read,
 * never changed, once the filter starts.
 */
module Coordinates {
  import opened Outcomes
  import opened Text
  import opened Codec

  /** The map with one more pair; a chromosome not yet present starts a set of its own. */
  function Insert(m: CoordinateMap, k: Key): (r: CoordinateMap)
    ensures forall j :: Listed(r, j) <==> Listed(m, j) || j == k
    ensures r.Keys == m.Keys + {k.chr}
    ensures forall c :: c in m ==> m[c] <= r[c]
  {
    if k.chr !in m then m[k.chr := {k.pos}] else m[k.chr := m[k.chr] + {k.pos}]
  }

  /** readBed's loop over the lines still to come, from map `m`: the first bad line ends it. */
  function Build(lines: seq<string>, m: CoordinateMap, cfg: Config): Result<CoordinateMap>
    decreases |lines|
  {
    if lines == [] then Ok(m)
    else match BedKey(lines[0], cfg)
      case Err(e) => Err(e)
      case Ok(k) => Build(lines[1..], Insert(m, k), cfg)
  }

  function BuildOn(lines: Result<seq<string>>, m: CoordinateMap, cfg: Config): Result<CoordinateMap>
  {
    match lines
    case Err(e) => Err(e)
    case Ok(ls) => Build(ls, m, cfg)
  }

  /**
   * The coordinate set of a whole coordinate file: its rows as
   * ReadString('\n') delivers them, each with its one last byte cut off.
   */
  function CoordinatesOf(bed: string, cfg: Config): Result<CoordinateMap>
  {
    BuildOn(Chunks(bed, '\n', 1), map[], cfg)
  }

  /**
   * readBed: read rows until io.EOF, inserting each row's key into the map.
   * `rest` is what the reader has not yet delivered.
   */
  method ReadBed(bed: string, cfg: Config) returns (r: Result<CoordinateMap>)
    ensures r == CoordinatesOf(bed, cfg)
  {
    var existsMap: CoordinateMap := map[];
    var rest := bed;
    while true
      invariant CoordinatesOf(bed, cfg) == BuildOn(Chunks(rest, '\n', 1), existsMap, cfg)
      decreases |rest|
    {
      var read := ReadString(rest, '\n');
      if read.Eof? {
        break;
      }
      var row := read.text;
      var key := BedKey(row[..|row| - 1], cfg);
      ReadBedStep(rest, existsMap, cfg);
      if key.Err? {
        return Err(key.error);
      }
      var chr := key.value.chr;
      if chr !in existsMap {
        existsMap := existsMap[chr := {key.value.pos}];
      } else {
        existsMap := existsMap[chr := existsMap[chr] + {key.value.pos}];
      }
      rest := rest[|row|..];
    }
    return Ok(existsMap);
  }

  /** One turn of readBed's loop: the row's key is inserted, or its failure ends the build. */
  lemma ReadBedStep(rest: string, m: CoordinateMap, cfg: Config)
    requires ReadString(rest, '\n').Row?
    ensures var row := ReadString(rest, '\n').text;
            BuildOn(Chunks(rest, '\n', 1), m, cfg)
            == match BedKey(row[..|row| - 1], cfg)
               case Err(e) => Err(e)
               case Ok(k) => BuildOn(Chunks(rest[|row|..], '\n', 1), Insert(m, k), cfg)
  {
    var row := ReadString(rest, '\n').text;
    var line := row[..|row| - 1];
    ChunksAreSplitFields(rest[|row|..], '\n');
    var lines := Chunks(rest[|row|..], '\n', 1).value;
    assert Chunks(rest, '\n', 1) == Ok([line] + lines);
    assert ([line] + lines)[1..] == lines;
  }

  /**
   * A pair is in the finished map exactly when it was there at the start or
   * some line's key is that pair.
   */
  lemma {:induction false} BuildListed(lines: seq<string>, m: CoordinateMap, cfg: Config)
    requires Build(lines, m, cfg).Ok?
    ensures forall k :: (Listed(Build(lines, m, cfg).value, k) <==>
                         Listed(m, k) || exists i :: 0 <= i < |lines| && BedKey(lines[i], cfg) == Ok(k))
    decreases |lines|
  {
    if lines != [] {
      var k0 := BedKey(lines[0], cfg).value;
      BuildListed(lines[1..], Insert(m, k0), cfg);
      KeysOfLines(lines, cfg, k0);
    }
  }

  /** The keys of a non-empty list of lines are the first line's key and those of the rest. */
  lemma KeysOfLines(lines: seq<string>, cfg: Config, k0: Key)
    requires lines != [] && BedKey(lines[0], cfg) == Ok(k0)
    ensures forall k :: ((exists i :: 0 <= i < |lines| && BedKey(lines[i], cfg) == Ok(k))
                         <==> k == k0 || exists i :: 0 <= i < |lines[1..]| && BedKey(lines[1..][i], cfg) == Ok(k))
  {
    forall k ensures (exists i :: 0 <= i < |lines| && BedKey(lines[i], cfg) == Ok(k))
      <==> k == k0 || exists i :: 0 <= i < |lines[1..]| && BedKey(lines[1..][i], cfg) == Ok(k)
    {
      if exists i :: 0 <= i < |lines| && BedKey(lines[i], cfg) == Ok(k) {
        var i :| 0 <= i < |lines| && BedKey(lines[i], cfg) == Ok(k);
        if i > 0 {
          assert lines[1..][i - 1] == lines[i];
        }
      }
      if exists i :: 0 <= i < |lines[1..]| && BedKey(lines[1..][i], cfg) == Ok(k) {
        var i :| 0 <= i < |lines[1..]| && BedKey(lines[1..][i], cfg) == Ok(k);
        assert lines[1..][i] == lines[i + 1];
      }
    }
  }

  /** The build fails exactly when some line's key cannot be read. */
  lemma {:induction false} BuildFails(lines: seq<string>, m: CoordinateMap, cfg: Config)
    ensures Build(lines, m, cfg).Err? <==> exists i :: 0 <= i < |lines| && BedKey(lines[i], cfg).Err?
    decreases |lines|
  {
    if lines != [] && BedKey(lines[0], cfg).Ok? {
      BuildFails(lines[1..], Insert(m, BedKey(lines[0], cfg).value), cfg);
      if exists i :: 0 <= i < |lines| && BedKey(lines[i], cfg).Err? {
        var i :| 0 <= i < |lines| && BedKey(lines[i], cfg).Err?;
        assert lines[1..][i - 1] == lines[i];
      }
    }
  }

  /** A failed build reports the failure of the first line that fails. */
  lemma {:induction false} BuildFailsFirst(lines: seq<string>, m: CoordinateMap, cfg: Config)
    requires Build(lines, m, cfg).Err?
    ensures exists i :: (0 <= i < |lines| && BedKey(lines[i], cfg) == Err(Build(lines, m, cfg).error) &&
                         forall j :: 0 <= j < i ==> BedKey(lines[j], cfg).Ok?)
    decreases |lines|
  {
    if BedKey(lines[0], cfg).Ok? {
      var tail := lines[1..];
      BuildFailsFirst(tail, Insert(m, BedKey(lines[0], cfg).value), cfg);
      var e := Build(lines, m, cfg).error;
      var i :| 0 <= i < |tail| && BedKey(tail[i], cfg) == Err(e) &&
               forall j :: 0 <= j < i ==> BedKey(tail[j], cfg).Ok?;
      assert tail[i] == lines[i + 1];
      forall j | 0 <= j < i + 1 ensures BedKey(lines[j], cfg).Ok? {
        if j > 0 {
          assert lines[j] == tail[j - 1];
        }
      }
    } else {
      assert BedKey(lines[0], cfg) == Err(Build(lines, m, cfg).error);
    }
  }

  /** Later lines only add: every position already in the map stays there. */
  lemma {:induction false} BuildGrows(lines: seq<string>, m: CoordinateMap, cfg: Config)
    requires Build(lines, m, cfg).Ok?
    ensures forall c :: c in m ==> c in Build(lines, m, cfg).value && m[c] <= Build(lines, m, cfg).value[c]
    decreases |lines|
  {
    if lines != [] {
      var k := BedKey(lines[0], cfg).value;
      BuildGrows(lines[1..], Insert(m, k), cfg);
    }
  }

  /**
   * Only '\n'-terminated lines reach the map: a coordinate file read to the
   * end inserts each of its complete lines and ignores a last line that has
   * no '\n'.
   */
  lemma CoordinatesOfLines(lines: seq<string>, tail: string, cfg: Config)
    requires forall i :: 0 <= i < |lines| ==> '\n' !in lines[i]
    requires '\n' !in tail
    ensures CoordinatesOf(Terminated(lines, "\n") + tail, cfg) == Build(lines, map[], cfg)
  {
    ChunksOfTerminated(lines, "\n", tail, '\n');
  }

  /** A blank line anywhere in the coordinate file aborts the build. */
  lemma BlankLineAborts(lines: seq<string>, i: nat, m: CoordinateMap, cfg: Config)
    requires i < |lines| && lines[i] == ""
    ensures Build(lines, m, cfg).Err?
  {
    BlankBedLineFails(cfg);
    BuildFails(lines, m, cfg);
  }
}
