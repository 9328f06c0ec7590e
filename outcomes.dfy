/**
 * Outcomes shared by every stage of the filter: a value, or the failure that
 * ends the run. The Go program stops the process on each of these failures,
 * either through log.Fatal or through a runtime panic; the model returns them.
 */
module Outcomes {

  /** Why a run stops early. */
  datatype Failure =
    | StreamEnded                       // the data ended before the first line terminator was seen
    | IndexOutOfRange                   // record[i] with i outside the split fields (panic)
    | SliceOutOfRange                   // row[:6] or row[:len(row)-numChars] on a short row (panic)
    | BadPosition(record: seq<string>)  // strconv.Atoi rejected the position field (log.Fatal)

  datatype Result<T> = Ok(value: T) | Err(error: Failure)

  datatype Option<T> = None | Some(value: T)

  /** `done` followed by the value of `rest`, or the failure of `rest`. */
  function Extend<T>(done: seq<T>, rest: Result<seq<T>>): Result<seq<T>>
  {
    match rest
    case Ok(s) => Ok(done + s)
    case Err(e) => Err(e)
  }

  lemma ExtendNothing<T>(rest: Result<seq<T>>)
    ensures Extend([], rest) == rest
  {
    if rest.Ok? {
      assert [] + rest.value == rest.value;
    }
  }

  lemma ExtendTwice<T>(done: seq<T>, more: seq<T>, rest: Result<seq<T>>)
    ensures Extend(done, Extend(more, rest)) == Extend(done + more, rest)
  {
    if rest.Ok? {
      assert done + (more + rest.value) == done + more + rest.value;
    }
  }
}
