/**
 * Whole runs on small concrete inputs: what the program prints, entry by
 * entry, for a given coordinate file and data stream.
 *
 * Each lemma takes its concrete texts as parameters pinned by a `requires`
 * (`requires bed == SAMPLE_BED`) instead of naming the literals in its
 * ensures. The facts are the same; the form keeps the verifier from
 * unfolding every function on the literal text at once, which makes the
 * proofs small.
 */
module Scenarios {
  import opened Outcomes
  import opened Text
  import opened Decimal
  import opened Codec
  import opened Terminator
  import opened Pipeline
  import Coordinates
  import Runs

  const SAMPLE_CFG: Config := Config(false, 0, 1)
  const SAMPLE_BED: string := "1\t100\n"
  const SAMPLE_DATA: string := "#CHROM\tPOS\n1\t100\n2\t200\n"

  /** The coordinate line "1\t100" reads as the key ("1", 100). */
  lemma SampleBedKey(line: string, cfg: Config)
    requires line == "1\t100" && cfg == SAMPLE_CFG
    ensures BedKey(line, cfg) == Ok(Key("1", 100))
  {
    assert Itoa(100) == "100";
    assert Join(["1", "100"], TAB) == line;
    BedKeyOfFields(["1", "100"], cfg, 100);
  }

  /** The coordinate file "1\t100\n" lists the one pair ("1", 100). */
  lemma SampleCoordinates(bed: string)
    requires bed == SAMPLE_BED
    ensures Coordinates.CoordinatesOf(bed, SAMPLE_CFG) == Ok(map["1" := {100}])
  {
    var lines := ["1\t100"];
    SampleBedKey(lines[0], SAMPLE_CFG);
    assert lines[1..] == [];
    assert Coordinates.Build(lines, map[], SAMPLE_CFG) == Ok(Coordinates.Insert(map[], Key("1", 100)));
    assert Terminated(lines, "\n") + "" == bed;
    Coordinates.CoordinatesOfLines(lines, "", SAMPLE_CFG);
  }

  /** The first line "#CHROM\tPOS" is too short to carry the VCF marker. */
  lemma SampleHeaderIsPlain(h: string)
    requires h == "#CHROM\tPOS"
    ensures !Contains(h, VCF_MARKER)
  {
    ContainsIff(h, VCF_MARKER);
    forall i | 0 <= i <= |h| ensures !HasPrefix(h[i..], VCF_MARKER) {
    }
  }

  /** "1\t100" carries the listed key ("1", 100). */
  lemma SampleLineListed(line: string, m: CoordinateMap)
    requires line == "1\t100" && m == map["1" := {100}]
    ensures Classify(line, m, false) == Ok(true)
  {
    assert Itoa(100) == "100";
    assert Join(["1", "100"] + [], TAB) == line;
    DataKeyOfFields("1", 100, [], false);
  }

  /** "2\t200" carries the key ("2", 200), which is not listed. */
  lemma SampleLineUnlisted(line: string, m: CoordinateMap)
    requires line == "2\t200" && m == map["1" := {100}]
    ensures Classify(line, m, false) == Ok(false)
  {
    assert Itoa(200) == "200";
    assert Join(["2", "200"] + [], TAB) == line;
    DataKeyOfFields("2", 200, [], false);
  }

  /** A queue of a listed line and an unlisted one forwards the first alone. */
  lemma HitsOfPair(a: string, b: string, m: CoordinateMap, convert: bool)
    requires Classify(a, m, convert) == Ok(true) && Classify(b, m, convert) == Ok(false)
    ensures Hits([a, b], m, convert) == Ok([a])
  {
    var q := [a, b];
    assert q[1..] == [b] && q[1..][1..] == [];
    ExtendNothing(Hits([], m, convert));
    assert Hits([b], m, convert) == Ok([]);
    assert [a] + [] == [a];
  }

  /** Of the two data lines only "1\t100" has a listed key. */
  lemma SampleHits(lines: seq<string>, m: CoordinateMap)
    requires lines == ["1\t100", "2\t200"] && m == map["1" := {100}]
    ensures Hits(lines, m, false) == Ok([lines[0]])
  {
    SampleLineListed(lines[0], m);
    SampleLineUnlisted(lines[1], m);
    HitsOfPair(lines[0], lines[1], m, false);
  }

  /** The sample data stream is a plain first line and two '\n'-terminated lines. */
  lemma SampleDataLines(data: string, h: string, lines: seq<string>)
    requires data == SAMPLE_DATA && h == "#CHROM\tPOS" && lines == ["1\t100", "2\t200"]
    ensures data == h + EndText(LF) + Terminated(lines, EndText(LF)) + ""
  {
    assert EndText(LF) == "\n";
    assert lines[1..][1..] == [];
    assert Terminated(lines[1..], "\n") == lines[1] + "\n";
    assert Terminated(lines, "\n") == lines[0] + "\n" + lines[1] + "\n";
  }

  /** None of the sample lines holds a line terminator. */
  lemma SampleLineText(h: string, lines: seq<string>)
    requires h == "#CHROM\tPOS" && lines == ["1\t100", "2\t200"]
    ensures Runs.AllLineText(lines) && LineText(h)
  {
  }

  /** A run whose only listed line is `l` prints the header and then `l` on a line of its own. */
  lemma FinishOne(h: string, l: string)
    ensures Finish(h, Ok([l])) == Run([h, l + "\n"], Completed)
  {
    assert Printed([l]) == [l + "\n"];
  }

  /** Against the pair ("1", 100), the sample stream prints its first line and then "1\t100". */
  lemma SampleStream(data: string, h: string, lines: seq<string>, m: CoordinateMap)
    requires h == "#CHROM\tPOS" && lines == ["1\t100", "2\t200"] && m == map["1" := {100}]
    requires data == h + EndText(LF) + Terminated(lines, EndText(LF)) + ""
    ensures FilterRun(data, m, false) == Run([h, lines[0] + "\n"], Completed)
  {
    SampleHeaderIsPlain(h);
    SampleLineText(h, lines);
    Runs.PlainStream(h, lines, LF, "", m, false);
    SampleHits(lines, m);
    FinishOne(h, lines[0]);
  }

  /**
   * Filtering "#CHROM\tPOS\n1\t100\n2\t200\n" against the coordinate file
   * "1\t100\n" prints the header without its line ending and then the one
   * listed line: standard output reads "#CHROM\tPOS1\t100\n".
   */
  lemma SampleRun(bed: string, data: string, h: string, lines: seq<string>, m: CoordinateMap)
    requires bed == SAMPLE_BED && data == SAMPLE_DATA
    requires h == "#CHROM\tPOS" && lines == ["1\t100", "2\t200"] && m == map["1" := {100}]
    ensures FilterFiles(bed, data, SAMPLE_CFG) == Run([h, lines[0] + "\n"], Completed)
  {
    SampleCoordinates(bed);
    SampleDataLines(data, h, lines);
    SampleStream(data, h, lines, m);
  }

  /** That output, written out in order: the header runs straight into the first listed line. */
  lemma SampleOutputText(out: seq<string>)
    requires out == ["#CHROM\tPOS", "1\t100\n"]
    ensures Runs.Flatten(out) == "#CHROM\tPOS1\t100\n"
  {
    assert out[1..][1..] == [];
    assert Runs.Flatten(out[1..]) == out[1] + Runs.Flatten([]);
    assert Runs.Flatten(out) == out[0] + out[1];
  }
}
