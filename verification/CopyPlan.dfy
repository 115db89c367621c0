/** Planning a multipart copy: how many parts, and which bytes of the source each one takes. */
module CopyPlan {
  import opened Prelude
  import opened Arithmetic
  import opened Cutting
  import opened Float64

  const MIB: int := 1024 * 1024
  const GIB: int := 1024 * MIB
  const TIB: int := 1024 * GIB
  const MIN_SOURCE_SIZE: int := 0
  const MAX_SOURCE_SIZE: int := 5 * TIB
  const MIN_PART_SIZE: int := 5 * MIB
  const MAX_PART_SIZE: int := 5 * GIB
  const I64_MAX: int := 0x7fff_ffff_ffff_ffff
  const I32_MAX: int := 0x7fff_ffff

  datatype CopyError =
    | SourceTooSmall(size: int) | SourceTooLarge(size: int)
    | PartTooSmall(size: int) | PartTooLarge(size: int)
    | InvalidRange(start: int, end: int) | NegativeStart(start: int)
    | MissingContentLength | MissingUploadId
    | IntRange | FloatRange | PartNumberRange
    | PartSizeGreaterThanSource(partSize: int, sourceSize: int)
    | SourceSizeZero
    | ServiceError

  type SourceSize = n: int | MIN_SOURCE_SIZE <= n <= MAX_SOURCE_SIZE
  type PartSize = n: int | MIN_PART_SIZE <= n <= MAX_PART_SIZE witness MIN_PART_SIZE

  function SourceSizeFrom(value: int): (r: Result<SourceSize, CopyError>) {
    if value < MIN_SOURCE_SIZE then Err(SourceTooSmall(value))
    else if value > MAX_SOURCE_SIZE then Err(SourceTooLarge(value))
    else Ok(value)
  }

  function PartSizeFrom(value: int): (r: Result<PartSize, CopyError>) {
    if value < MIN_PART_SIZE then Err(PartTooSmall(value))
    else if value > MAX_PART_SIZE then Err(PartTooLarge(value))
    else Ok(value)
  }

  /** A range of bytes, inclusive at both ends (section 14.1.2 of RFC 9110). */
  datatype ByteRange = ByteRange(start: int, end: int)

  function ByteRangeFrom(start: int, end: int): (r: Result<ByteRange, CopyError>) {
    if start < 0 then Err(NegativeStart(start))
    else if start > end then Err(InvalidRange(start, end))
    else Ok(ByteRange(start, end))
  }

  /** 64-bit signed arithmetic wraps around. */
  function WrapI64(x: int): (r: int)
    ensures -I64_MAX - 1 <= r <= I64_MAX
    ensures -I64_MAX - 1 <= x <= I64_MAX ==> r == x
  {
    (x + I64_MAX + 1) % (2 * (I64_MAX + 1)) - (I64_MAX + 1)
  }

  // ---- the number of parts ----

  /** The checked conversion to a float: integers beyond 2^53 are refused, as they may not be exact. */
  function F64From(n: nat): (r: Result<F64, CopyError>)
    requires n > 0
    ensures r.Ok? ==> Normal(r.value)
  {
    if n <= TWO53 then Ok(FromInt(n)) else Err(IntRange)
  }

  /** The conversion of an integral float to a 64-bit integer. */
  function I64From(n: nat): (r: Result<int, CopyError>) {
    if n <= I64_MAX then Ok(n) else Err(FloatRange)
  }

  function PartCount(sourceSize: nat, partSize: nat): (r: Result<int, CopyError>)
    requires partSize > 0
  {
    if sourceSize == 0 then Err(SourceSizeZero) else
    match F64From(sourceSize)
    case Err(e) => Err(e)
    case Ok(source) =>
      match F64From(partSize)
      case Err(e) => Err(e)
      case Ok(part) => I64From(Ceil(Divide(source, part)))
  }

  /**
   For all positive sizes, the part count is the exact ceiling of the quotient if both sizes are at
   most 2^53, and a range error otherwise; no other outcome is possible.
   */
  lemma {:induction false} PartCountIsExact(sourceSize: nat, partSize: nat)
    requires sourceSize > 0 && partSize > 0
    ensures PartCount(sourceSize, partSize)
         == if sourceSize <= TWO53 && partSize <= TWO53 then Ok(CeilDiv(sourceSize, partSize)) else Err(IntRange)
  {
    if sourceSize <= TWO53 && partSize <= TWO53 {
      CeilOfQuotientIsExact(sourceSize, partSize);
      CeilAtMost(sourceSize, partSize);
    }
  }

  lemma {:induction false} CeilAtMost(p: nat, q: nat)
    requires p > 0 && q > 0
    ensures 0 < CeilDiv(p, q) <= p
  {
    CeilBounds(p, q);
    var m := CeilDiv(p, q);
    MulMonotone(1, q, m - 1);
  }

  /** Sizes within the service's limits always have an exact part count; unbounded ones need not. */
  lemma {:induction false} PartCountNeedsBounds(sourceSize: SourceSize, partSize: PartSize)
    requires sourceSize > 0
    ensures PartCount(sourceSize, partSize) == Ok(CeilDiv(sourceSize, partSize))
    ensures PartCount(1, 9007199254740993) == Err(IntRange)
    ensures PartCount(4611686018427387903, 1) == Err(IntRange)
  {
    PartCountIsExact(sourceSize, partSize);
    PartCountIsExact(1, 9007199254740993);
    PartCountIsExact(4611686018427387903, 1);
  }

  // ---- the byte ranges ----

  type PlannedRange = Result<(int, ByteRange), CopyError>

  function RangeOf(partNumber: int, sourceSize: SourceSize, partSize: PartSize): (r: PlannedRange) {
    var start := WrapI64(WrapI64(partNumber - 1) * partSize);
    var fullEnd := WrapI64(WrapI64(partNumber * partSize) - 1);
    var lastByte := WrapI64(sourceSize - 1);
    var end := if fullEnd < lastByte then fullEnd else lastByte;
    match ByteRangeFrom(start, end)
    case Err(e) => Err(e)
    case Ok(range) => Ok((partNumber, range))
  }

  function ByteRanges(sourceSize: SourceSize, partSize: PartSize): (ranges: seq<PlannedRange>) {
    if sourceSize == 0 then [Err(SourceSizeZero)] else
    match PartCount(sourceSize, partSize)
    case Err(e) => [Err(e)]
    case Ok(count) => seq(if count < 0 then 0 else count, i => RangeOf(i + 1, sourceSize, partSize))
  }

  /** The range of part `i + 1` as it should be. */
  function ExactRange(i: nat, sourceSize: nat, partSize: nat): (range: ByteRange) {
    ByteRange(i * partSize, if (i + 1) * partSize < sourceSize then (i + 1) * partSize - 1 else sourceSize - 1)
  }

  lemma {:induction false} RangeIsExact(i: nat, sourceSize: SourceSize, partSize: PartSize)
    requires i * partSize < sourceSize
    ensures RangeOf(i + 1, sourceSize, partSize) == Ok((i + 1, ExactRange(i, sourceSize, partSize)))
  {
    MulPlusOne(i, partSize);
    MulMonotone(1, partSize, i);
    assert (i + 1) * partSize <= MAX_SOURCE_SIZE + MAX_PART_SIZE;
  }

  lemma {:induction false} PartStartsInside(i: nat, sourceSize: nat, partSize: nat)
    requires partSize > 0 && sourceSize > 0 && i < CeilDiv(sourceSize, partSize)
    ensures i * partSize < sourceSize
    ensures i + 1 == CeilDiv(sourceSize, partSize) ==> sourceSize <= (i + 1) * partSize
    ensures i + 1 < CeilDiv(sourceSize, partSize) ==> (i + 1) * partSize < sourceSize
  {
    var m := CeilDiv(sourceSize, partSize);
    CeilBounds(sourceSize, partSize);
    MulMonotone(i, m - 1, partSize);
    if i + 1 < m { MulMonotone(i + 1, m - 1, partSize); }
  }

  /** The products computed for part `i + 1`, up to the end a full part would have, fit 64 bits. */
  predicate NoProductWraps(i: nat, partSize: nat) {
    0 <= i * partSize < (i + 1) * partSize <= I64_MAX
  }

  lemma {:induction false} PartEndFits(i: nat, sourceSize: SourceSize, partSize: PartSize)
    requires sourceSize > 0 && i < CeilDiv(sourceSize, partSize)
    ensures NoProductWraps(i, partSize)
  {
    PartStartsInside(i, sourceSize, partSize);
    MulPlusOne(i, partSize);
    MulMonotone(0, i, partSize);
  }

  lemma {:induction false} RangeAt(i: nat, sourceSize: SourceSize, partSize: PartSize)
    requires sourceSize > 0 && i < CeilDiv(sourceSize, partSize)
    ensures |ByteRanges(sourceSize, partSize)| == CeilDiv(sourceSize, partSize)
    ensures ByteRanges(sourceSize, partSize)[i] == Ok((i + 1, ExactRange(i, sourceSize, partSize)))
    ensures var r := ExactRange(i, sourceSize, partSize);
            && 0 <= r.start <= r.end < sourceSize && r.end - r.start < partSize
            && (i == 0 ==> r.start == 0)
            && (i + 1 == CeilDiv(sourceSize, partSize) ==> r.end == sourceSize - 1)
            && (i + 1 < CeilDiv(sourceSize, partSize) ==>
                  r.end - r.start + 1 == partSize && ExactRange(i + 1, sourceSize, partSize).start == r.end + 1)
  {
    PartCountIsExact(sourceSize, partSize);
    PartStartsInside(i, sourceSize, partSize);
    RangeIsExact(i, sourceSize, partSize);
    MulPlusOne(i, partSize);
  }

  lemma {:induction false} ProductsFit(sourceSize: SourceSize, partSize: PartSize)
    requires sourceSize > 0
    ensures forall i :: 0 <= i < CeilDiv(sourceSize, partSize) ==> NoProductWraps(i, partSize)
  {
    forall i | 0 <= i < CeilDiv(sourceSize, partSize) ensures NoProductWraps(i, partSize) {
      PartEndFits(i, sourceSize, partSize);
    }
  }

  /** Each range but the last is one part long and ends just before the next one starts. */
  lemma {:induction false} RangesMeet(i: nat, sourceSize: SourceSize, partSize: PartSize)
    requires sourceSize > 0 && i + 1 < CeilDiv(sourceSize, partSize)
    ensures var ranges := ByteRanges(sourceSize, partSize);
            && |ranges| == CeilDiv(sourceSize, partSize) && ranges[i].Ok? && ranges[i + 1].Ok?
            && ranges[i + 1].value.1.start == ranges[i].value.1.end + 1
            && ranges[i].value.1.end - ranges[i].value.1.start + 1 == partSize
  {
    RangeAt(i, sourceSize, partSize);
    RangeAt(i + 1, sourceSize, partSize);
  }

  /**
   The ranges tile the source: numbered 1..n with n = ceil(source / part), starting at byte 0, each
   starting right after the one before, ending at the last byte; all but the last are exactly one
   part long. No conversion fails and no 64-bit operation wraps on the way.
   */
  lemma {:induction false} RangesTile(sourceSize: SourceSize, partSize: PartSize)
    requires sourceSize > 0
    ensures var ranges := ByteRanges(sourceSize, partSize);
            var n := CeilDiv(sourceSize, partSize);
            && |ranges| == n > 0
            && (forall i :: 0 <= i < n ==> ranges[i].Ok? && ranges[i].value.0 == i + 1)
            && (forall i :: 0 <= i < n ==>
                  var r := ranges[i].value.1; 0 <= r.start <= r.end < sourceSize && r.end - r.start < partSize)
            && ranges[0].value.1.start == 0
            && ranges[n-1].value.1.end == sourceSize - 1
            && (forall i, j :: 0 <= i < j < n && j == i + 1 ==>
                  && ranges[j].value.1.start == ranges[i].value.1.end + 1
                  && ranges[i].value.1.end - ranges[i].value.1.start + 1 == partSize)
    ensures forall i :: 0 <= i < CeilDiv(sourceSize, partSize) ==> NoProductWraps(i, partSize)
  {
    var ranges, n := ByteRanges(sourceSize, partSize), CeilDiv(sourceSize, partSize);
    CeilBounds(sourceSize, partSize);
    ProductsFit(sourceSize, partSize);
    RangeAt(0, sourceSize, partSize);
    RangeAt(n - 1, sourceSize, partSize);
    forall i | 0 <= i < n
      ensures ranges[i].Ok? && ranges[i].value.0 == i + 1
      ensures var r := ranges[i].value.1; 0 <= r.start <= r.end < sourceSize && r.end - r.start < partSize
    {
      RangeAt(i, sourceSize, partSize);
    }
    forall i, j | 0 <= i < j < n && j == i + 1
      ensures && ranges[j].value.1.start == ranges[i].value.1.end + 1
              && ranges[i].value.1.end - ranges[i].value.1.start + 1 == partSize
    {
      RangesMeet(i, sourceSize, partSize);
    }
    assert |ranges| == n > 0;
  }

  /** The bytes of a range. */
  function Slice(content: seq<byte>, range: ByteRange): (bytes: seq<byte>)
    requires 0 <= range.start <= range.end < |content|
  {
    content[range.start..range.end + 1]
  }

  lemma {:induction false} SplitAt(content: seq<byte>, partSize: nat, i: nat)
    requires 0 < partSize && i < |Split(content, partSize)|
    ensures i * partSize < |content|
    ensures Split(content, partSize)[i] == Slice(content, ExactRange(i, |content|, partSize))
    decreases i
  {
    MulPlusOne(i, partSize);
    if |content| <= partSize {
      assert i == 0;
    } else if i > 0 {
      var tail := content[partSize..];
      SplitAt(tail, partSize, i - 1);
      MulPlusOne(i - 1, partSize);
      var r, r' := ExactRange(i, |content|, partSize), ExactRange(i - 1, |tail|, partSize);
      assert r.start == r'.start + partSize && r.end == r'.end + partSize;
      assert Split(content, partSize)[i] == Split(tail, partSize)[i - 1];
    }
  }

  /** The planned ranges cut a source of that size exactly as the canonical cut does. */
  lemma {:induction false} RangesCutCanonically(content: seq<byte>, partSize: PartSize, i: nat)
    requires 0 < |content| <= MAX_SOURCE_SIZE
    requires i < |ByteRanges(|content|, partSize)|
    ensures i < |Split(content, partSize)|
    ensures var planned := ByteRanges(|content|, partSize)[i];
            && planned.Ok?
            && planned.value.0 == i + 1
            && 0 <= planned.value.1.start <= planned.value.1.end < |content|
            && Slice(content, planned.value.1) == Split(content, partSize)[i]
  {
    RangesTile(|content|, partSize);
    SplitShape(content, partSize);
    SplitAt(content, partSize, i);
    RangeAt(i, |content|, partSize);
  }
}
