/**
 * The outcome comparator: `check_res` on the two sides' results and
 * `check_bytes` on the two buffers a read filled.
 */
module Compare {
  import opened Io

  /** `Command::check_res`: the same value on both sides, or the same error
      kind on both sides; anything else is a divergence reported with kind `Other`. */
  function CheckRes<T(==)>(res1: IoResult<T>, res2: IoResult<T>): (r: IoResult<()>)
    ensures r.Ok? <==> (res1.Ok? && res2.Ok? && res1.value == res2.value) ||
                       (res1.Err? && res2.Err? && res1.error.kind == res2.error.kind)
    ensures r.Err? ==> r.error.kind == Other
    // a success on one side and a failure on the other is always a divergence
    ensures res1.Ok? != res2.Ok? ==> r == Err(IoError(Other, ResultMismatch(res1.Ok?)))
  {
    match (res1, res2)
    case (Ok(v1), Ok(v2)) => if v1 != v2 then Err(IoError(Other, OkValueMismatch)) else Ok(())
    case (Err(e1), Err(e2)) =>
      if e1.kind != e2.kind then Err(IoError(Other, ErrKindMismatch(e1.kind, e2.kind))) else Ok(())
    case (Ok(_), Err(_)) => Err(IoError(Other, ResultMismatch(true)))
    case (Err(_), Ok(_)) => Err(IoError(Other, ResultMismatch(false)))
  }

  /** The verdict does not depend on which side is which. */
  lemma CheckResSymmetric<T>(res1: IoResult<T>, res2: IoResult<T>)
    ensures CheckRes(res1, res2).Ok? <==> CheckRes(res2, res1).Ok?
  {
  }

  /** The first index, within the shorter buffer, where the two buffers differ. */
  function FirstMismatch(bytes1: seq<Byte>, bytes2: seq<Byte>): (r: Option<nat>)
    ensures r.Some? ==> r.value < |bytes1| && r.value < |bytes2| &&
                        bytes1[r.value] != bytes2[r.value] &&
                        forall j :: 0 <= j < r.value ==> bytes1[j] == bytes2[j]
    ensures r.None? <==> forall j :: 0 <= j < |bytes1| && j < |bytes2| ==> bytes1[j] == bytes2[j]
  {
    if bytes1 == [] || bytes2 == [] then None
    else if bytes1[0] != bytes2[0] then Some(0)
    else
      match FirstMismatch(bytes1[1..], bytes2[1..])
      case None => None
      case Some(k) => Some(k + 1)
  }

  /** What `check_bytes` decides: a divergence naming the first differing
      offset and both bytes there, or nothing when the buffers agree as far as
      the shorter one goes. */
  function BytesVerdict(bytes1: seq<Byte>, bytes2: seq<Byte>): (r: IoResult<()>)
    ensures r.Ok? <==> forall j :: 0 <= j < |bytes1| && j < |bytes2| ==> bytes1[j] == bytes2[j]
    ensures r.Err? ==> r.error.kind == Other && r.error.detail.BytesMismatch?
    ensures r.Err? && r.error.detail.BytesMismatch? ==>
              var k := r.error.detail.offset;
              k < |bytes1| && k < |bytes2| && bytes1[k] != bytes2[k] &&
              r.error.detail.byte1 == bytes1[k] && r.error.detail.byte2 == bytes2[k] &&
              forall j :: 0 <= j < k ==> bytes1[j] == bytes2[j]
  {
    if bytes1 == bytes2 then Ok(())
    else
      match FirstMismatch(bytes1, bytes2)
      case None => Ok(())
      case Some(k) => Err(IoError(Other, BytesMismatch(k, bytes1[k], bytes2[k])))
  }

  /** On buffers of one length, the verdict is a divergence exactly when they differ. */
  lemma BytesVerdictEqualLength(bytes1: seq<Byte>, bytes2: seq<Byte>)
    requires |bytes1| == |bytes2|
    ensures BytesVerdict(bytes1, bytes2).Err? <==> bytes1 != bytes2
  {
    if bytes1 != bytes2 {
      var k :| 0 <= k < |bytes1| && bytes1[k] != bytes2[k];
    }
  }

  /** A buffer that is a strict prefix of the other passes: the pairwise scan
      ends with the shorter buffer before it finds a difference. */
  lemma BytesVerdictPrefixPasses(bytes1: seq<Byte>, rest: seq<Byte>)
    requires rest != []
    ensures BytesVerdict(bytes1, bytes1 + rest) == Ok(())
    ensures BytesVerdict(bytes1 + rest, bytes1) == Ok(())
  {
  }

  /** `Command::check_bytes`: compare the buffers whole, and only when they
      differ scan them pairwise for the first difference. */
  method CheckBytes(bytes1: seq<Byte>, bytes2: seq<Byte>) returns (r: IoResult<()>)
    ensures r == BytesVerdict(bytes1, bytes2)
  {
    if bytes1 != bytes2 {
      var i := 0;
      while i < |bytes1| && i < |bytes2|
        invariant i <= |bytes1| && i <= |bytes2|
        invariant forall j :: 0 <= j < i ==> bytes1[j] == bytes2[j]
      {
        if bytes1[i] != bytes2[i] {
          return Err(IoError(Other, BytesMismatch(i, bytes1[i], bytes2[i])));
        }
        i := i + 1;
      }
    }
    return Ok(());
  }
}
