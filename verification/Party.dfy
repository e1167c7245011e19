/** Party identifiers and the result types used where the source returns an error or nil. */
module Party {
  import opened Zq

  type Byte = b: int | 0 <= b < 256

  /** An identifier of a party, a string of bytes. */
  datatype ID = ID(name: seq<Byte>)

  /** ID.Scalar: the interpolation point of a party, an arbitrary function of the identifier. */
  const ScalarOf: ID -> Scalar

  /** The set of the listed parties. */
  function IdSet(ids: seq<ID>): (s: set<ID>)
    ensures forall k :: k in s <==> k in ids
  {
    set k | k in ids
  }

  function Points(ids: seq<ID>): (r: seq<Scalar>)
    ensures |r| == |ids| && forall i :: 0 <= i < |ids| ==> r[i] == ScalarOf(ids[i])
  {
    seq(|ids|, i requires 0 <= i < |ids| => ScalarOf(ids[i]))
  }

  datatype Result<+T> = Ok(value: T) | Err(error: string)

  datatype Option<+T> = None | Some(value: T)
}
