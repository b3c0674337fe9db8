/**
 * `convert` as the source runs it: the string branch fills an `int[]` of end
 * offsets in place while appending each element's bytes to one output stream.
 */
module TermsConvert {
  import opened Wrappers
  import opened Utf8
  import opened TermsValues

  /** `Math.addExact(int, int)`: the sum, or ArithmeticException when it leaves the int range. */
  function AddExact(x: int, y: int): (r: Result<i32, Error>)
    ensures r.Err? <==> !(-0x8000_0000 <= x + y <= IntMax)
    ensures r.Err? ==> r.error == ArithmeticOverflow
    ensures r.Ok? ==> r.value as int == x + y
  {
    if -0x8000_0000 <= x + y <= IntMax then Ok((x + y) as i32) else Err(ArithmeticOverflow)
  }

  /** Stores `list` in the representation its classification selects. */
  method Convert(list: seq<Value>) returns (r: Result<Stored, Error>)
    ensures r == Converted(list)
  {
    if |list| == 0 {
      return Ok(EmptyList);
    }
    if AllIntegers(list) {
      var elements := seq(|list|, i requires 0 <= i < |list| => LongValue(list[i]));
      return Ok(LongArray(elements));
    }
    if AllStrings(list) {
      StringBranchTaken(list);
      r := ConvertStrings(list);
      return;
    }
    return Ok(Plain(seq(|list|, i requires 0 <= i < |list| => StringToBytesRef(list[i]))));
  }

  /** One step of the blob loop: appending element i extends the blob to the first i + 1 elements. */
  lemma BlobStep(list: seq<Value>, i: nat, bytesOut: seq<byte>)
    requires AllStrings(list) && i < |list| && bytesOut == Concat(list[..i])
    ensures bytesOut + TermBytes(list[i]) == Concat(list[..i + 1])
    ensures EndOffset(list, i) == |bytesOut| + |TermBytes(list[i])|
    ensures EndOffset(list, i) <= |Concat(list)|
  {
    ConcatStep(list, i);
    ConcatPrefix(list, i + 1);
  }

  /** After the last step the blob and the offsets are those of the whole list. */
  lemma BlobDone(list: seq<Value>, bytesOut: seq<byte>, ends: seq<i32>)
    requires AllStrings(list) && bytesOut == Concat(list[..|list|]) && |bytesOut| <= IntMax
    requires |ends| == |list| && forall k | 0 <= k < |list| :: ends[k] as int == EndOffset(list, k)
    ensures bytesOut == Concat(list) && |Concat(list)| <= IntMax && ends == EndOffsets(list)
  {
    assert list[..|list|] == list;
  }

  /**
   * The blob branch: one pass over the list appends each element's bytes and
   * records where it ends, failing on the first running sum outside the int range.
   */
  method ConvertStrings(list: seq<Value>) returns (r: Result<Stored, Error>)
    requires AllStrings(list)
    ensures r.Err? <==> |Concat(list)| > IntMax
    ensures r.Err? ==> r.error == ArithmeticOverflow
    ensures r.Ok? ==> r.value == Blob(Concat(list), EndOffsets(list))
  {
    var endOffsets := new i32[|list|];
    var bytesOut: seq<byte> := [];
    var i := 0;
    while i < |list|
      invariant 0 <= i <= |list|
      invariant bytesOut == Concat(list[..i])
      invariant |bytesOut| <= IntMax
      invariant i > 0 ==> endOffsets[i - 1] as int == |bytesOut|
      invariant forall k | 0 <= k < i :: endOffsets[k] as int == EndOffset(list, k)
    {
      var o := list[i];
      // A CharBuffer never reaches this loop: it is not in STRING_TYPES.
      var b := TermBytes(o);
      BlobStep(list, i, bytesOut);
      var start := if i == 0 then 0 else endOffsets[i - 1] as int;
      assert start == |bytesOut|;
      var end := AddExact(start, |b|);
      if end.Err? {
        assert EndOffset(list, i) > IntMax;
        return Err(ArithmeticOverflow);
      }
      assert end.value as int == EndOffset(list, i);
      bytesOut := bytesOut + b;
      endOffsets[i] := end.value;
      i := i + 1;
    }
    BlobDone(list, bytesOut, endOffsets[..]);
    return Ok(Blob(bytesOut, endOffsets[..]));
  }
}
