/**
 * The filter over the data stream (readFile and processLine): detect the
 * line terminator, print the header, queue every further row, let a worker
 * forward the rows whose (chromosome, position) is in the coordinate set,
 * and print each forwarded row on a line of its own.
 *
 * The program runs one producer, ten workers and one printer concurrently;
 * here they run one after the other with a single worker, which is the
 * order the program prints in when one worker happens to take every row.
 */
module Pipeline {
  import opened Outcomes
  import opened Text
  import opened Codec
  import opened Terminator
  import Coordinates

  /** A first line containing this is a VCF file, whose meta lines belong to the header. */
  const VCF_MARKER: string := "##fileformat=VCF"
  /** The VCF column-header row, the last row of a VCF header. */
  const COLUMN_HEADER: string := "#CHROM"

  /** The header text the program prints, and the reader after it. */
  datatype Header = Header(text: string, rest: string)

  /** Header text `front` followed by the block read after it, or that block's failure. */
  function After(front: string, block: Result<Header>): Result<Header>
  {
    match block
    case Err(e) => Err(e)
    case Ok(b) => Ok(Header(front + b.text, b.rest))
  }

  lemma AfterTwice(front: string, row: string, block: Result<Header>)
    ensures After(front, After(row, block)) == After(front + row, block)
  {
    if block.Ok? {
      assert front + (row + block.value.text) == front + row + block.value.text;
    }
  }

  /**
   * The VCF header loop over the unread input `rest`: every row joins the
   * header verbatim, its terminator included, through the first row that
   * begins with "#CHROM". A row shorter than six characters panics on
   * row[:6]. At end of stream the loop stops: an unterminated remainder is
   * dropped and nothing is left to read.
   */
  function MetaBlock(rest: string, d: char): (r: Result<Header>)
    ensures r.Ok? ==> HasPrefix(rest, r.value.text)
    ensures r.Ok? ==> (r.value.rest == rest[|r.value.text|..] ||
                       (r.value.rest == [] && d !in rest[|r.value.text|..]))
    ensures r.Err? ==> r.error == SliceOutOfRange
    decreases |rest|
  {
    match ReadString(rest, d)
    case Eof(_) => Ok(Header([], []))
    case Row(row) =>
      if |row| < 6 then Err(SliceOutOfRange)
      else if row[..6] == COLUMN_HEADER then Ok(Header(row, rest[|row|..]))
      else
        assert rest == row + rest[|row|..];
        After(row, MetaBlock(rest[|row|..], d))
  }

  /**
   * The header readFile prints: the first line's text, without its
   * terminator, and for a VCF file the meta block after it.
   */
  function HeaderOf(det: Detection): Result<Header>
  {
    if Contains(det.header, VCF_MARKER) then After(det.header, MetaBlock(det.rest, det.ending.delim))
    else Ok(Header(det.header, det.rest))
  }

  /** readFile's header step, with the reader's unread input `rest`. */
  method ReadHeader(det: Detection) returns (r: Result<Header>)
    ensures r == HeaderOf(det)
  {
    var headerLine := det.header;
    var rest := det.rest;
    if Contains(headerLine, VCF_MARKER) {
      while true
        invariant HeaderOf(det) == After(headerLine, MetaBlock(rest, det.ending.delim))
        decreases |rest|
      {
        var read := ReadString(rest, det.ending.delim);
        if read.Eof? {
          assert headerLine + [] == headerLine;
          rest := [];
          break;
        }
        var row := read.text;
        AfterTwice(headerLine, row, MetaBlock(rest[|row|..], det.ending.delim));
        headerLine := headerLine + row;
        rest := rest[|row|..];
        if |row| < 6 {
          return Err(SliceOutOfRange);
        }
        if row[..6] == COLUMN_HEADER {
          break;
        }
      }
    }
    return Ok(Header(headerLine, rest));
  }

  /**
   * The producer goroutine: every row through the terminator byte, less the
   * terminator's width, goes into the work queue in input order; the queue
   * is closed at end of stream.
   */
  method Produce(reader: string, ending: LineEnding) returns (r: Result<seq<string>>)
    ensures r == Chunks(reader, ending.delim, ending.width)
  {
    var workQueue: seq<string> := [];
    var rest := reader;
    ExtendNothing(Chunks(reader, ending.delim, ending.width));
    while true
      invariant Chunks(reader, ending.delim, ending.width)
                == Extend(workQueue, Chunks(rest, ending.delim, ending.width))
      decreases |rest|
    {
      var read := ReadString(rest, ending.delim);
      if read.Eof? {
        assert workQueue + [] == workQueue;
        break;
      }
      var row := read.text;
      if |row| < ending.width {
        return Err(SliceOutOfRange);
      }
      var line := row[..|row| - ending.width];
      ExtendTwice(workQueue, [line], Chunks(rest[|row|..], ending.delim, ending.width));
      workQueue := workQueue + [line];
      rest := rest[|row|..];
    }
    return Ok(workQueue);
  }

  /**
   * What one worker sends to the results channel for the lines it takes
   * from the queue: each listed line, in queue order. The first line whose
   * key cannot be read ends the run.
   */
  function Hits(queue: seq<string>, m: CoordinateMap, convert: bool): Result<seq<string>>
    decreases |queue|
  {
    if queue == [] then Ok([])
    else match Classify(queue[0], m, convert)
      case Err(e) => Err(e)
      case Ok(hit) => Extend(if hit then [queue[0]] else [], Hits(queue[1..], m, convert))
  }

  /** processLine: classify each queued line and forward the listed ones. */
  method ProcessLine(queue: seq<string>, posMap: CoordinateMap, convertUCSC: bool) returns (r: Result<seq<string>>)
    ensures r == Hits(queue, posMap, convertUCSC)
  {
    var results: seq<string> := [];
    var pending := queue;
    ExtendNothing(Hits(queue, posMap, convertUCSC));
    while pending != []
      invariant Hits(queue, posMap, convertUCSC) == Extend(results, Hits(pending, posMap, convertUCSC))
      decreases |pending|
    {
      var line := pending[0];
      var verdict := Classify(line, posMap, convertUCSC);
      if verdict.Err? {
        return Err(verdict.error);
      }
      var forwarded := if verdict.value then [line] else [];
      ExtendTwice(results, forwarded, Hits(pending[1..], posMap, convertUCSC));
      results := results + forwarded;
      pending := pending[1..];
    }
    assert results + [] == results;
    return Ok(results);
  }

  /** Every line of the queue has a readable key. */
  predicate Readable(queue: seq<string>, convert: bool)
  {
    forall line :: line in queue ==> DataKey(line, convert).Ok?
  }

  /** The lines of `queue` that `keep` accepts, in queue order. */
  function Keep(queue: seq<string>, keep: string -> bool): seq<string>
    decreases |queue|
  {
    if queue == [] then [] else (if keep(queue[0]) then [queue[0]] else []) + Keep(queue[1..], keep)
  }

  /** A worker's test for one line: its key reads and is listed. */
  function Passes(m: CoordinateMap, convert: bool): string -> bool
  {
    line => Classify(line, m, convert) == Ok(true)
  }

  /** The queued lines whose key is listed, in queue order: what the filter is meant to pass. */
  function Matching(queue: seq<string>, m: CoordinateMap, convert: bool): seq<string>
  {
    Keep(queue, Passes(m, convert))
  }

  /**
   * A worker finishes exactly when every line it takes has a readable key,
   * and then it forwards exactly the listed lines, in the order it took them.
   */
  lemma {:induction false} HitsAreMatching(queue: seq<string>, m: CoordinateMap, convert: bool)
    ensures Hits(queue, m, convert).Ok? <==> Readable(queue, convert)
    ensures Hits(queue, m, convert).Ok? ==> Hits(queue, m, convert).value == Matching(queue, m, convert)
    decreases |queue|
  {
    if queue != [] {
      HitsAreMatching(queue[1..], m, convert);
      assert queue == [queue[0]] + queue[1..];
      assert Passes(m, convert)(queue[0]) <==> Classify(queue[0], m, convert) == Ok(true);
      assert Readable(queue, convert) <==> DataKey(queue[0], convert).Ok? && Readable(queue[1..], convert);
    }
  }

  /** A worker that fails reports the first line of its queue whose key cannot be read. */
  lemma {:induction false} HitsFailFirst(queue: seq<string>, m: CoordinateMap, convert: bool)
    requires Hits(queue, m, convert).Err?
    ensures exists i :: (0 <= i < |queue| && DataKey(queue[i], convert) == Err(Hits(queue, m, convert).error) &&
                         forall j :: 0 <= j < i ==> DataKey(queue[j], convert).Ok?)
    decreases |queue|
  {
    var e := Hits(queue, m, convert).error;
    if DataKey(queue[0], convert).Ok? {
      var tail := queue[1..];
      HitsFailFirst(tail, m, convert);
      var i :| 0 <= i < |tail| && DataKey(tail[i], convert) == Err(e) &&
               forall j :: 0 <= j < i ==> DataKey(tail[j], convert).Ok?;
      assert tail[i] == queue[i + 1];
      forall j | 0 <= j < i + 1 ensures DataKey(queue[j], convert).Ok? {
        if j > 0 {
          assert queue[j] == tail[j - 1];
        }
      }
    } else {
      assert DataKey(queue[0], convert) == Err(e);
    }
  }

  /** A line is passed exactly when it is queued and its key is listed. */
  lemma MatchingMembers(queue: seq<string>, m: CoordinateMap, convert: bool)
    ensures forall line :: line in Matching(queue, m, convert) <==> line in queue && Classify(line, m, convert) == Ok(true)
  {
    KeepMembers(queue, Passes(m, convert));
  }

  lemma {:induction false} KeepMembers(queue: seq<string>, keep: string -> bool)
    ensures forall line :: line in Keep(queue, keep) <==> line in queue && keep(line)
    decreases |queue|
  {
    if queue != [] {
      KeepMembers(queue[1..], keep);
      assert queue == [queue[0]] + queue[1..];
    }
  }

  /** Filtering keeps input order: the lines of a later stretch come after those of an earlier one. */
  lemma MatchingAppend(a: seq<string>, b: seq<string>, m: CoordinateMap, convert: bool)
    ensures Matching(a + b, m, convert) == Matching(a, m, convert) + Matching(b, m, convert)
  {
    KeepAppend(a, b, Passes(m, convert));
  }

  lemma {:induction false} KeepAppend(a: seq<string>, b: seq<string>, keep: string -> bool)
    ensures Keep(a + b, keep) == Keep(a, keep) + Keep(b, keep)
    decreases |a|
  {
    if a != [] {
      KeepAppend(a[1..], b, keep);
      assert (a + b)[0] == a[0];
      assert (a + b)[1..] == a[1..] + b;
    } else {
      assert a + b == b;
    }
  }

  /**
   * The lines worker `w` takes from the shared queue, in queue order, when
   * line i is received by worker owner[i].
   */
  function Share(queue: seq<string>, owner: seq<int>, w: nat): seq<string>
    requires |owner| == |queue|
    decreases |queue|
  {
    if queue == [] then []
    else (if owner[0] == w then [queue[0]] else []) + Share(queue[1..], owner[1..], w)
  }

  /** What workers 0 to n-1 pass together when each keeps the lines `keep` accepts, whatever the interleaving. */
  function Forwarded(queue: seq<string>, owner: seq<int>, n: nat, keep: string -> bool): multiset<string>
    requires |owner| == |queue|
    decreases n
  {
    if n == 0 then multiset{}
    else Forwarded(queue, owner, n - 1, keep) + multiset(Keep(Share(queue, owner, n - 1), keep))
  }

  lemma {:induction false} ShareMembers(queue: seq<string>, owner: seq<int>, w: nat)
    requires |owner| == |queue|
    ensures forall line :: line in Share(queue, owner, w) ==> line in queue
    decreases |queue|
  {
    if queue != [] {
      ShareMembers(queue[1..], owner[1..], w);
      assert queue == [queue[0]] + queue[1..];
    }
  }

  /** The first queued line, as a multiset, if it is passed by one of workers 0 to k-1. */
  function FirstBelow(queue: seq<string>, owner: seq<int>, k: nat, keep: string -> bool): multiset<string>
    requires |owner| == |queue| && queue != []
  {
    if 0 <= owner[0] < k && keep(queue[0]) then multiset{queue[0]} else multiset{}
  }

  lemma {:induction false} ForwardedFirst(queue: seq<string>, owner: seq<int>, k: nat, keep: string -> bool)
    requires |owner| == |queue| && queue != []
    ensures Forwarded(queue, owner, k, keep) == Forwarded(queue[1..], owner[1..], k, keep) + FirstBelow(queue, owner, k, keep)
    decreases k
  {
    if k > 0 {
      var j := k - 1;
      ForwardedFirst(queue, owner, j, keep);
      ForwardedStep(queue, owner, j + 1, keep);
    }
  }

  lemma ForwardedStep(queue: seq<string>, owner: seq<int>, k: nat, keep: string -> bool)
    requires |owner| == |queue| && queue != [] && k > 0
    requires Forwarded(queue, owner, k - 1, keep)
          == Forwarded(queue[1..], owner[1..], k - 1, keep) + FirstBelow(queue, owner, k - 1, keep)
    ensures Forwarded(queue, owner, k, keep) == Forwarded(queue[1..], owner[1..], k, keep) + FirstBelow(queue, owner, k, keep)
  {
    var w := k - 1;
    var before := FirstBelow(queue, owner, w, keep);
    var now := FirstBelow(queue, owner, k, keep);
    ShareFirst(queue, owner, w, keep);
    Regroup(Forwarded(queue, owner, k, keep), Forwarded(queue[1..], owner[1..], k, keep),
            Forwarded(queue[1..], owner[1..], w, keep), before, now - before,
            multiset(Keep(Share(queue[1..], owner[1..], w), keep)), now);
  }

  lemma ShareFirst(queue: seq<string>, owner: seq<int>, w: nat, keep: string -> bool)
    requires |owner| == |queue| && queue != []
    ensures multiset(Keep(Share(queue, owner, w), keep))
         == FirstBelow(queue, owner, w + 1, keep) - FirstBelow(queue, owner, w, keep)
          + multiset(Keep(Share(queue[1..], owner[1..], w), keep))
    ensures FirstBelow(queue, owner, w, keep) <= FirstBelow(queue, owner, w + 1, keep)
  {
    var later := Share(queue[1..], owner[1..], w);
    if owner[0] == w {
      var s := Share(queue, owner, w);
      assert s == [queue[0]] + later;
      assert s[0] == queue[0] && s[1..] == later;
    } else {
      assert Share(queue, owner, w) == later;
    }
  }

  lemma Regroup(total: multiset<string>, others: multiset<string>, rest: multiset<string>,
                before: multiset<string>, mine: multiset<string>, theirs: multiset<string>, now: multiset<string>)
    requires total == rest + before + (mine + theirs) && others == rest + theirs && now == mine + before
    ensures total == others + now
  {
    assert forall x :: total[x] == (others + now)[x];
  }

  /**
   * However the ten workers share the queue, together they send exactly the
   * lines the filter is meant to pass, each as often as it is queued and
   * listed; only the order in which the printer receives them is open.
   */
  lemma WorkersForwardMatching(queue: seq<string>, owner: seq<int>, n: nat, m: CoordinateMap, convert: bool)
    requires |owner| == |queue|
    requires forall i :: 0 <= i < |owner| ==> 0 <= owner[i] < n
    ensures Forwarded(queue, owner, n, Passes(m, convert)) == multiset(Matching(queue, m, convert))
    ensures Readable(queue, convert) ==>
              forall w :: Hits(Share(queue, owner, w), m, convert) == Ok(Matching(Share(queue, owner, w), m, convert))
  {
    ForwardedKeep(queue, owner, n, Passes(m, convert));
    if Readable(queue, convert) {
      forall w ensures Hits(Share(queue, owner, w), m, convert) == Ok(Matching(Share(queue, owner, w), m, convert)) {
        ShareMembers(queue, owner, w);
        HitsAreMatching(Share(queue, owner, w), m, convert);
      }
    }
  }

  lemma {:induction false} ForwardedKeep(queue: seq<string>, owner: seq<int>, n: nat, keep: string -> bool)
    requires |owner| == |queue|
    requires forall i :: 0 <= i < |owner| ==> 0 <= owner[i] < n
    ensures Forwarded(queue, owner, n, keep) == multiset(Keep(queue, keep))
    decreases |queue|
  {
    if queue == [] {
      ForwardedEmpty(queue, owner, n, keep);
    } else {
      ForwardedFirst(queue, owner, n, keep);
      ForwardedKeep(queue[1..], owner[1..], n, keep);
    }
  }

  lemma {:induction false} ForwardedEmpty(queue: seq<string>, owner: seq<int>, k: nat, keep: string -> bool)
    requires |owner| == |queue| && queue == []
    ensures Forwarded(queue, owner, k, keep) == multiset{}
    decreases k
  {
    if k > 0 {
      ForwardedEmpty(queue, owner, k - 1, keep);
    }
  }

  /** What fmt.Println writes for each forwarded line: the line and a '\n'. */
  function Printed(lines: seq<string>): (out: seq<string>)
    ensures |out| == |lines|
    ensures forall i :: 0 <= i < |lines| ==> out[i] == lines[i] + "\n"
    decreases |lines|
  {
    if lines == [] then [] else [lines[0] + "\n"] + Printed(lines[1..])
  }

  /** The printer goroutine: one Println per result, in the order they arrive. */
  method Consume(out: seq<string>, results: seq<string>) returns (emitted: seq<string>)
    ensures emitted == out + Printed(results)
  {
    emitted := out;
    for i := 0 to |results|
      invariant emitted == out + Printed(results[..i])
    {
      emitted := emitted + [results[i] + "\n"];
    }
    assert results[..|results|] == results;
  }

  /** How a run ends: normally, or through log.Fatal or a panic. */
  datatype Status = Completed | Aborted(failure: Failure)

  /**
   * What a run writes to standard output, one entry per Print or Println
   * call, and how it ends. An aborted run holds only what the program is
   * sure to have written before it stopped.
   */
  datatype Run = Run(out: seq<string>, status: Status)

  /** The output once the header is printed: the forwarded lines, or the failure. */
  function Finish(header: string, hits: Result<seq<string>>): Run
  {
    match hits
    case Err(e) => Run([header], Aborted(e))
    case Ok(lines) => Run([header] + Printed(lines), Completed)
  }

  /** readFile over the whole data stream `data`, with the coordinate set `m`. */
  function FilterRun(data: string, m: CoordinateMap, convert: bool): Run
  {
    match FindEndOfLine(data, "")
    case Err(e) => Run([], Aborted(e))
    case Ok(det) =>
      match HeaderOf(det)
      case Err(e) => Run([], Aborted(e))
      case Ok(h) =>
        match Chunks(h.rest, det.ending.delim, det.ending.width)
        case Err(e) => Run([h.text], Aborted(e))
        case Ok(queue) => Finish(h.text, Hits(queue, m, convert))
  }

  /** readFile: detect, print the header, then queue, filter and print. */
  method ReadFile(data: string, posMap: CoordinateMap, convertUCSC: bool) returns (out: seq<string>, status: Status)
    ensures Run(out, status) == FilterRun(data, posMap, convertUCSC)
  {
    var found := FindEndOfLine(data, "");
    if found.Err? {
      return [], Aborted(found.error);
    }
    var det := found.value;
    var header := ReadHeader(det);
    if header.Err? {
      return [], Aborted(header.error);
    }
    out := [header.value.text];
    var queue := Produce(header.value.rest, det.ending);
    if queue.Err? {
      return out, Aborted(queue.error);
    }
    var results := ProcessLine(queue.value, posMap, convertUCSC);
    if results.Err? {
      return out, Aborted(results.error);
    }
    out := Consume(out, results.value);
    status := Completed;
  }

  /** The whole program after setup: build the coordinate set, then filter the data stream. */
  function FilterFiles(bed: string, data: string, cfg: Config): Run
  {
    match Coordinates.CoordinatesOf(bed, cfg)
    case Err(e) => Run([], Aborted(e))
    case Ok(m) => FilterRun(data, m, cfg.ucscChr)
  }

  /** main after setup: readBed, then readFile with Println as the result function. */
  method Filter(bed: string, data: string, cfg: Config) returns (out: seq<string>, status: Status)
    ensures Run(out, status) == FilterFiles(bed, data, cfg)
  {
    var bedMap := Coordinates.ReadBed(bed, cfg);
    if bedMap.Err? {
      return [], Aborted(bedMap.error);
    }
    out, status := ReadFile(data, bedMap.value, cfg.ucscChr);
  }
}
