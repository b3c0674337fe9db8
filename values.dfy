/**
 * The value model of the terms query: the Java objects a terms list may hold,
 * the compact representations `convert` stores them in, and the list view
 * (`get`/`size`) each representation offers.
 */
module TermsValues {
  import opened Wrappers
  import opened Utf8

  newtype i8 = x: int | -0x80 <= x < 0x80
  newtype i16 = x: int | -0x8000 <= x < 0x8000
  newtype i32 = x: int | -0x8000_0000 <= x < 0x8000_0000
  newtype i64 = x: int | -0x8000_0000_0000_0000 <= x < 0x8000_0000_0000_0000

  /** Integer.MAX_VALUE: the largest offset an `int[]` can hold. */
  const IntMax: int := 0x7FFF_FFFF

  /**
   * A term as the Java object that carries it, tagged by its exact class.
   * Floating-point values are opaque: only their bit patterns are kept, taken
   * to be the canonical `floatToIntBits`/`doubleToLongBits` patterns that
   * `Float.equals` and `Double.equals` compare.
   */
  datatype Value =
    | JByte(b: i8)
    | JShort(s: i16)
    | JInteger(i: i32)
    | JLong(l: i64)
    | JFloat(floatBits: i32)
    | JDouble(doubleBits: i64)
    | JBoolean(bit: bool)
    | JString(str: string)
    | JBytesRef(bytes: seq<byte>)
    | JCharBuffer(chars: string)
    | JNull

  /**
   * The failures the terms query raises, named after the Java exception
   * classes, except `TooManyTerms`: the source throws an
   * IllegalArgumentException whose message carries the count and the limit.
   */
  datatype Error =
    | IllegalArgument(message: string)
    | TooManyTerms(count: nat, maxTermsCount: int)
    | IllegalState(message: string)
    | UnsupportedOperation(message: string)
    | ArithmeticOverflow
    | Parsing(message: string)
    | NullPointer

  /** Membership of the exact class in INTEGER_TYPES (Byte, Short, Integer, Long); null is not a member. */
  predicate IsIntegerType(v: Value) {
    v.JByte? || v.JShort? || v.JInteger? || v.JLong?
  }

  /** Membership of the exact class in STRING_TYPES (String, BytesRef); CharBuffer is not a member. */
  predicate IsStringType(v: Value) {
    v.JString? || v.JBytesRef?
  }

  predicate AllIntegers(list: seq<Value>) {
    forall i | 0 <= i < |list| :: IsIntegerType(list[i])
  }

  predicate AllStrings(list: seq<Value>) {
    forall i | 0 <= i < |list| :: IsStringType(list[i])
  }

  /** The mathematical value of a boxed integer. */
  function IntegerValue(v: Value): (n: int)
    requires IsIntegerType(v)
    ensures -0x8000_0000_0000_0000 <= n < 0x8000_0000_0000_0000
  {
    match v
    case JByte(b) => b as int
    case JShort(s) => s as int
    case JInteger(i) => i as int
    case JLong(l) => l as int
  }

  /** `Number.longValue()` on a member of INTEGER_TYPES: sign-extension to 64 bits. */
  function LongValue(v: Value): i64
    requires IsIntegerType(v)
  {
    IntegerValue(v) as i64
  }

  /** The bytes a String or BytesRef contributes to the blob. */
  function TermBytes(v: Value): seq<byte>
    requires IsStringType(v)
  {
    if v.JBytesRef? then v.bytes else Encode(v.str)
  }

  /** The mixed-branch mapping: a String becomes a BytesRef of its UTF-8 bytes; anything else is kept. */
  function StringToBytesRef(v: Value): Value {
    if v.JString? then JBytesRef(Encode(v.str)) else v
  }

  /** The blob of an all-string list: the elements' bytes, one after the other. */
  function Concat(list: seq<Value>): seq<byte>
    requires AllStrings(list)
    decreases |list|
  {
    if list == [] then [] else Concat(list[..|list| - 1]) + TermBytes(list[|list| - 1])
  }

  /** Where element k of an all-string list ends in the blob: the byte count of elements 0..k. */
  function EndOffset(list: seq<Value>, k: nat): int
    requires AllStrings(list) && k < |list|
  {
    |Concat(list[..k + 1])|
  }

  /** The cumulative end offsets of an all-string list whose blob fits an int. */
  function EndOffsets(list: seq<Value>): (ends: seq<i32>)
    requires AllStrings(list) && |Concat(list)| <= IntMax
    ensures |ends| == |list|
    ensures forall k | 0 <= k < |list| :: ends[k] as int == EndOffset(list, k)
    decreases |list|
  {
    if list == [] then []
    else
      var init := list[..|list| - 1];
      assert Concat(list) == Concat(init) + TermBytes(list[|list| - 1]);
      EndOffsetsOfInit(list);
      assert list[..|list|] == list;
      EndOffsets(init) + [|Concat(list)| as i32]
  }

  /** Dropping the last element leaves the end offsets of the others unchanged. */
  lemma EndOffsetsOfInit(list: seq<Value>)
    requires AllStrings(list) && |list| > 0
    ensures forall k | 0 <= k < |list| - 1 :: EndOffset(list, k) == EndOffset(list[..|list| - 1], k)
  {
    var init := list[..|list| - 1];
    forall k | 0 <= k < |init| ensures EndOffset(list, k) == EndOffset(init, k) {
      assert list[..k + 1] == init[..k + 1];
    }
  }

  /** The list `convert` returns, by the representation behind it. */
  datatype Stored =
    | EmptyList                                          // Collections.emptyList()
    | LongArray(elements: seq<i64>)                      // the long[] list
    | Blob(bytes: seq<byte>, endOffsets: seq<i32>)       // the blob + int[] endOffsets list
    | Plain(items: seq<Value>)                           // an ordinary list of objects

  function StartOffset(ends: seq<i32>, k: nat): int
    requires k < |ends|
  {
    if k == 0 then 0 else ends[k - 1] as int
  }

  /** The invariant under which every element of a stored list can be read. */
  predicate WellFormed(st: Stored) {
    st.Blob? ==>
      forall k | 0 <= k < |st.endOffsets| ::
        0 <= StartOffset(st.endOffsets, k) <= st.endOffsets[k] as int <= |st.bytes|
  }

  /** `size()` of the stored list. */
  function Size(st: Stored): nat {
    match st
    case EmptyList => 0
    case LongArray(e) => |e|
    case Blob(_, ends) => |ends|
    case Plain(items) => |items|
  }

  /** `get(i)` of the stored list: a boxed Long, a BytesRef slice of the blob, or the object kept. */
  function Get(st: Stored, i: nat): Value
    requires WellFormed(st) && i < Size(st)
  {
    match st
    case LongArray(e) => JLong(e[i])
    case Blob(bytes, ends) => JBytesRef(bytes[StartOffset(ends, i)..ends[i]])
    case Plain(items) => items[i]
  }

  /** The stored list read element by element, as `List.equals` and the wire writer see it. */
  function Elements(st: Stored): (r: seq<Value>)
    requires WellFormed(st)
    ensures |r| == Size(st)
    ensures forall i | 0 <= i < |r| :: r[i] == Get(st, i)
  {
    seq(Size(st), i requires 0 <= i < Size(st) => Get(st, i))
  }

  /** The user-facing form of one element: a BytesRef is decoded back to a String. */
  function UserValue(v: Value): Value {
    if v.JBytesRef? then JString(Decode(v.bytes)) else v
  }

  /** `convertBack`: the stored list viewed with every BytesRef turned back into a String. */
  function ConvertBack(st: Stored): (r: seq<Value>)
    requires WellFormed(st)
    ensures |r| == Size(st)
    ensures forall i | 0 <= i < |r| :: r[i] == UserValue(Get(st, i))
  {
    seq(Size(st), i requires 0 <= i < Size(st) => UserValue(Get(st, i)))
  }

  /**
   * `convert`: the representation is decided once over the whole list. All
   * members of INTEGER_TYPES give a long array; all members of STRING_TYPES
   * give a blob with end offsets, failing as `Math.addExact` does when the
   * running byte count leaves the int range; anything else (a null, a float,
   * a CharBuffer, a mix) gives a plain list with Strings turned into BytesRefs.
   */
  function Converted(list: seq<Value>): Result<Stored, Error> {
    if |list| == 0 then
      Ok(EmptyList)
    else if AllIntegers(list) then
      Ok(LongArray(seq(|list|, i requires 0 <= i < |list| => LongValue(list[i]))))
    else if AllStrings(list) then
      if |Concat(list)| > IntMax then Err(ArithmeticOverflow)
      else Ok(Blob(Concat(list), EndOffsets(list)))
    else
      Ok(Plain(seq(|list|, i requires 0 <= i < |list| => StringToBytesRef(list[i]))))
  }

  /** The blob of a prefix of the list is a prefix of the blob. */
  lemma {:induction false} ConcatPrefix(list: seq<Value>, n: nat)
    requires AllStrings(list) && n <= |list|
    ensures |Concat(list[..n])| <= |Concat(list)|
    ensures Concat(list)[..|Concat(list[..n])|] == Concat(list[..n])
    decreases |list|
  {
    if n < |list| {
      var init := list[..|list| - 1];
      assert init[..n] == list[..n];
      ConcatPrefix(init, n);
    } else {
      assert list[..n] == list;
    }
  }

  /** Element k occupies the bytes between the end of element k - 1 and its own end. */
  lemma ConcatStep(list: seq<Value>, k: nat)
    requires AllStrings(list) && k < |list|
    ensures Concat(list[..k + 1]) == Concat(list[..k]) + TermBytes(list[k])
  {
    assert list[..k + 1][..k] == list[..k];
  }

  /** `convert` keeps the length in every branch, and an empty input stays empty. */
  lemma ConvertedSize(list: seq<Value>)
    ensures Converted(list).Ok? ==>
      && WellFormed(Converted(list).value)
      && Size(Converted(list).value) == |list|
    ensures |list| == 0 ==> Converted(list) == Ok(EmptyList)
  {
    if |list| > 0 && AllStrings(list) && Converted(list).Ok? {
      StringBranchTaken(list);
      BlobWellFormed(list);
    }
  }

  /** All members of INTEGER_TYPES: element i reads back as a Long holding the value of input i. */
  lemma IntegerBranch(list: seq<Value>, i: nat)
    requires AllIntegers(list) && i < |list|
    ensures Converted(list).Ok? && Converted(list).value.LongArray?
    ensures Get(Converted(list).value, i).JLong?
    ensures Get(Converted(list).value, i).l as int == IntegerValue(list[i])
  {
  }

  /** All members of STRING_TYPES (and not empty): `convert` takes the blob branch. */
  lemma StringBranchTaken(list: seq<Value>)
    requires AllStrings(list) && |list| > 0
    ensures Converted(list) ==
      if |Concat(list)| > IntMax then Err(ArithmeticOverflow)
      else Ok(Blob(Concat(list), EndOffsets(list)))
  {
    assert !IsIntegerType(list[0]);
  }

  /** Element k ends |TermBytes(list[k])| bytes after element k - 1 ends. */
  lemma EndOffsetStep(list: seq<Value>, k: nat)
    requires AllStrings(list) && k < |list|
    ensures EndOffset(list, k) == (if k == 0 then 0 else EndOffset(list, k - 1)) + |TermBytes(list[k])|
  {
    ConcatStep(list, k);
    if k == 0 {
      assert list[..0] == [];
    }
  }

  /** End offsets never decrease and never pass the end of the blob. */
  lemma EndOffsetBounds(list: seq<Value>, j: nat, k: nat)
    requires AllStrings(list) && j <= k < |list|
    ensures 0 <= EndOffset(list, j) <= EndOffset(list, k) <= |Concat(list)|
  {
    var pk := list[..k + 1];
    assert AllStrings(pk);
    assert pk[..j + 1] == list[..j + 1];
    ConcatPrefix(pk, j + 1);
    assert EndOffset(list, j) <= |Concat(pk)| == EndOffset(list, k);
    ConcatPrefix(list, k + 1);
  }

  /** The offset arithmetic of the blob branch, stated on `EndOffsets` itself. */
  lemma BlobOffsets(list: seq<Value>)
    requires AllStrings(list) && |list| > 0 && |Concat(list)| <= IntMax
    ensures var ends := EndOffsets(list);
      && (forall j, k | 0 <= j <= k < |list| :: ends[j] <= ends[k])
      && (forall k | 0 <= k < |list| :: ends[k] as int - StartOffset(ends, k) == |TermBytes(list[k])|)
      && ends[|list| - 1] as int == |Concat(list)|
  {
    var ends := EndOffsets(list);
    forall k | 0 <= k < |list|
      ensures ends[k] as int - StartOffset(ends, k) == |TermBytes(list[k])|
    {
      EndOffsetStep(list, k);
    }
    forall j, k | 0 <= j <= k < |list| ensures ends[j] <= ends[k] {
      EndOffsetBounds(list, j, k);
    }
    assert list[..|list|] == list;
  }

  /** Every element's slice of the blob lies inside the blob. */
  lemma BlobWellFormed(list: seq<Value>)
    requires AllStrings(list) && |Concat(list)| <= IntMax
    ensures WellFormed(Blob(Concat(list), EndOffsets(list)))
  {
    var bytes, ends := Concat(list), EndOffsets(list);
    forall k | 0 <= k < |ends|
      ensures 0 <= StartOffset(ends, k) <= ends[k] as int <= |bytes|
    {
      EndOffsetStep(list, k);
      EndOffsetBounds(list, k, k);
    }
  }

  /** Element i starts in the blob where the bytes of the elements before it end. */
  lemma BlobStart(list: seq<Value>, i: nat)
    requires AllStrings(list) && i < |list| && |Concat(list)| <= IntMax
    ensures StartOffset(EndOffsets(list), i) == |Concat(list[..i])|
  {
    if i == 0 {
      assert list[..0] == [];
    } else {
      assert list[..i - 1 + 1] == list[..i];
    }
  }

  /** The blob between the start and the end of element i holds exactly that element's bytes. */
  lemma BlobBetween(list: seq<Value>, i: nat)
    requires AllStrings(list) && i < |list|
    ensures |Concat(list[..i])| <= EndOffset(list, i) <= |Concat(list)|
    ensures Concat(list)[|Concat(list[..i])|..EndOffset(list, i)] == TermBytes(list[i])
  {
    ConcatStep(list, i);
    ConcatPrefix(list, i + 1);
    var bytes, start, end := Concat(list), |Concat(list[..i])|, EndOffset(list, i);
    assert bytes[..end] == Concat(list[..i]) + TermBytes(list[i]);
    assert bytes[start..end] == bytes[..end][start..];
  }

  /** `get(i)` on the blob cuts out exactly the bytes of input i. */
  lemma BlobSlice(list: seq<Value>, i: nat)
    requires AllStrings(list) && i < |list| && |Concat(list)| <= IntMax
    ensures WellFormed(Blob(Concat(list), EndOffsets(list)))
    ensures Get(Blob(Concat(list), EndOffsets(list)), i) == JBytesRef(TermBytes(list[i]))
  {
    BlobWellFormed(list);
    BlobStart(list, i);
    BlobBetween(list, i);
  }

  /**
   * All members of STRING_TYPES: the running sum fails exactly when the blob
   * outgrows an int; otherwise the offsets are non-decreasing, offset k minus
   * offset k - 1 is the byte length of element k, and the last offset is the
   * blob length.
   */
  lemma StringBranchOffsets(list: seq<Value>)
    requires AllStrings(list) && |list| > 0
    ensures Converted(list).Err? <==> |Concat(list)| > IntMax
    ensures Converted(list).Err? ==> Converted(list).error == ArithmeticOverflow
    ensures Converted(list).Ok? ==>
      var st := Converted(list).value;
      && st.Blob?
      && st.bytes == Concat(list)
      && |st.endOffsets| == |list|
      && (forall j, k | 0 <= j <= k < |list| :: st.endOffsets[j] <= st.endOffsets[k])
      && (forall k | 0 <= k < |list| ::
            st.endOffsets[k] as int - StartOffset(st.endOffsets, k) == |TermBytes(list[k])|)
      && st.endOffsets[|list| - 1] as int == |st.bytes|
  {
    StringBranchTaken(list);
    if |Concat(list)| <= IntMax {
      BlobOffsets(list);
    }
  }

  /** All members of STRING_TYPES: element i is exactly the bytes of input i, cut out of the blob. */
  lemma StringBranchGet(list: seq<Value>, i: nat)
    requires AllStrings(list) && i < |list| && Converted(list).Ok?
    ensures WellFormed(Converted(list).value)
    ensures Get(Converted(list).value, i) == JBytesRef(TermBytes(list[i]))
  {
    StringBranchTaken(list);
    BlobSlice(list, i);
  }

  /** Neither branch applies: the list is kept in order, with Strings replaced by BytesRefs. */
  lemma MixedBranchGet(list: seq<Value>, i: nat)
    requires !AllIntegers(list) && !AllStrings(list) && i < |list|
    ensures Converted(list).Ok? && Converted(list).value.Plain?
    ensures Get(Converted(list).value, i) == StringToBytesRef(list[i])
  {
  }

  /** A CharBuffer is not in STRING_TYPES: a list holding one is never compacted and keeps it as is. */
  lemma CharBufferKeptAsIs(list: seq<Value>, i: nat)
    requires i < |list| && list[i].JCharBuffer?
    ensures Converted(list).Ok? && Converted(list).value.Plain?
    ensures Get(Converted(list).value, i) == list[i]
  {
    assert !AllIntegers(list) && !AllStrings(list) by {
      assert !IsIntegerType(list[i]) && !IsStringType(list[i]);
    }
  }

  /**
   * `convertBack` after `convert`: integers come back as Longs of the same
   * value; every other element comes back in its user-facing form (a String
   * as itself, a BytesRef decoded to a String, anything else unchanged).
   */
  lemma ConvertBackConverted(list: seq<Value>, i: nat)
    requires Converted(list).Ok? && i < |list|
    ensures WellFormed(Converted(list).value)
    ensures AllIntegers(list) ==>
      ConvertBack(Converted(list).value)[i] == JLong(LongValue(list[i]))
    ensures !AllIntegers(list) ==>
      ConvertBack(Converted(list).value)[i] == UserValue(list[i])
  {
    ConvertedSize(list);
    if !AllIntegers(list) {
      if AllStrings(list) {
        StringBranchGet(list, i);
      }
      if list[i].JString? {
        DecodeEncode(list[i].str);
      }
    }
  }

  /** A String stored as a BytesRef shows as the same String again; every other object shows as it would unconverted. */
  lemma UserValueOfBytesRef(v: Value)
    ensures UserValue(StringToBytesRef(v)) == if v.JString? then v else UserValue(v)
  {
    if v.JString? {
      DecodeEncode(v.str);
    }
  }

  /** A list of Strings reads back through `convertBack` as itself. */
  lemma ConvertBackOfStrings(list: seq<Value>)
    requires forall i | 0 <= i < |list| :: list[i].JString?
    requires Converted(list).Ok?
    ensures WellFormed(Converted(list).value)
    ensures ConvertBack(Converted(list).value) == list
  {
    ConvertedSize(list);
    var back := ConvertBack(Converted(list).value);
    forall i | 0 <= i < |list| ensures back[i] == list[i] {
      ConvertBackConverted(list, i);
    }
  }

  /** A list of Longs reads back through `convertBack` as itself. */
  lemma ConvertBackOfLongs(list: seq<Value>)
    requires forall i | 0 <= i < |list| :: list[i].JLong?
    ensures Converted(list).Ok? && WellFormed(Converted(list).value)
    ensures ConvertBack(Converted(list).value) == list
  {
    ConvertedSize(list);
    var back := ConvertBack(Converted(list).value);
    forall i | 0 <= i < |list| ensures back[i] == list[i] {
      ConvertBackConverted(list, i);
    }
  }

  /**
   * Two integer lists compare equal after `convert` exactly when they hold the
   * same values in the same order, whatever boxed types carried them.
   */
  lemma EqualIntegerLists(a: seq<Value>, b: seq<Value>)
    requires AllIntegers(a) && AllIntegers(b)
    ensures Converted(a).Ok? && Converted(b).Ok?
    ensures WellFormed(Converted(a).value) && WellFormed(Converted(b).value)
    ensures Elements(Converted(a).value) == Elements(Converted(b).value) <==>
      |a| == |b| && forall i | 0 <= i < |a| :: IntegerValue(a[i]) == IntegerValue(b[i])
  {
    ConvertedSize(a);
    ConvertedSize(b);
    var ea, eb := Elements(Converted(a).value), Elements(Converted(b).value);
    if ea == eb {
      forall i | 0 <= i < |a| ensures IntegerValue(a[i]) == IntegerValue(b[i]) {
        IntegerBranch(a, i);
        IntegerBranch(b, i);
        assert ea[i] == eb[i];
      }
    }
    if |a| == |b| && forall i | 0 <= i < |a| :: IntegerValue(a[i]) == IntegerValue(b[i]) {
      forall i | 0 <= i < |a| ensures ea[i] == eb[i] {
        IntegerBranch(a, i);
        IntegerBranch(b, i);
      }
    }
  }

  /** Two lists of Strings compare equal after `convert` exactly when they are the same strings. */
  lemma EqualStringLists(a: seq<Value>, b: seq<Value>)
    requires forall i | 0 <= i < |a| :: a[i].JString?
    requires forall i | 0 <= i < |b| :: b[i].JString?
    requires Converted(a).Ok? && Converted(b).Ok?
    ensures WellFormed(Converted(a).value) && WellFormed(Converted(b).value)
    ensures Elements(Converted(a).value) == Elements(Converted(b).value) <==> a == b
  {
    ConvertedSize(a);
    ConvertedSize(b);
    var ea, eb := Elements(Converted(a).value), Elements(Converted(b).value);
    if ea == eb {
      forall i | 0 <= i < |a| ensures a[i] == b[i] {
        StringBranchGet(a, i);
        StringBranchGet(b, i);
        assert ea[i] == eb[i];
        EncodeInjective(a[i].str, b[i].str);
      }
    }
  }

  /** An integer list never equals a string list after `convert`, even for the same digits. */
  lemma IntegersNeverEqualStrings(a: seq<Value>, b: seq<Value>)
    requires AllIntegers(a) && |a| > 0
    requires AllStrings(b) && Converted(b).Ok?
    ensures Converted(a).Ok? && WellFormed(Converted(a).value) && WellFormed(Converted(b).value)
    ensures Elements(Converted(a).value) != Elements(Converted(b).value)
  {
    ConvertedSize(a);
    ConvertedSize(b);
    IntegerBranch(a, 0);
    if |b| > 0 {
      StringBranchGet(b, 0);
      assert Elements(Converted(a).value)[0] != Elements(Converted(b).value)[0];
    }
  }
}
