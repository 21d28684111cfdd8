/** The decoding loop that every generated `Unmarshal` method runs, with the
    message type left open. A schema says which field numbers a message knows and
    what a field does to it; the laws below hold for every schema.
  */
module Decoder {
  import opened Wire
  import opened Skip

  datatype Kind = VarintField | DelimitedField | UnknownField

  datatype Schema<!M> = Schema(
    kind: Int32 -> Kind,
    setVarint: (M, Int32, Uint64) -> M,
    setBytes: (M, Int32, Bytes) -> Result<M>)

  datatype Tag = Tag(number: Int32, wireType: nat, next: nat)

  /** The tag at index `i`; field numbers are cut to 32 bits, as Go does. */
  function TagAt(d: Bytes, i: nat): (r: Result<Tag>)
    ensures r.Ok? ==> i < r.value.next <= |d|
  {
    match ReadVarint(d, i)
    case Err(e) => Err(e)
    case Ok((wire, next)) =>
      var tag := Tag(ToInt32(wire / 8), wire % 8, next);
      if tag.wireType == 4 then Err(EndGroupForNonGroup)
      else if tag.number <= 0 then Err(IllegalTag)
      else Ok(tag)
  }

  /** The bounds of the length-prefixed bytes at index `i`, with the decoder's
      guards against negative and wrapped-around lengths. */
  function Extent(d: Bytes, i: nat): (r: Result<(nat, nat)>)
    requires |d| < TWO_63
    ensures r.Ok? ==> i < r.value.0 <= r.value.1 <= |d|
  {
    match ReadVarint(d, i)
    case Err(e) => Err(e)
    case Ok((v, start)) =>
      var length := ToInt64(v);
      if length < 0 then Err(InvalidLength)
      else
        var end := AddInt64(start, length);
        if end < 0 then Err(InvalidLength)
        else if end > |d| then Err(UnexpectedEOF)
        else Ok((start, end))
  }

  /** The index after the unknown field at index `i`. */
  function Beyond(d: Bytes, i: nat): (r: Result<nat>)
    requires i < |d| < TWO_63
    ensures r.Ok? ==> i < r.value <= |d|
  {
    match SkipField(d[i..])
    case Err(e) => Err(e)
    case Ok(n) =>
      var end := AddInt64(i, n);
      if end < 0 then Err(InvalidLength)
      else if end > |d| then Err(UnexpectedEOF)
      else Ok(end)
  }

  /** What the field at `i` with the given tag does. */
  function Take<M>(s: Schema<M>, m: M, d: Bytes, i: nat, tag: Tag): (r: Result<(M, nat)>)
    requires i < |d| < TWO_63
    ensures r.Ok? ==> (i < tag.next ==> i < r.value.1) && r.value.1 <= |d|
  {
    match s.kind(tag.number)
    case VarintField =>
      if tag.wireType != 0 then Err(WrongWireType)
      else
        (match ReadVarint(d, tag.next)
         case Err(e) => Err(e)
         case Ok((v, next)) => Ok((s.setVarint(m, tag.number, v), next)))
    case DelimitedField =>
      if tag.wireType != 2 then Err(WrongWireType)
      else
        (match Extent(d, tag.next)
         case Err(e) => Err(e)
         case Ok((start, end)) =>
           match s.setBytes(m, tag.number, d[start..end])
           case Err(e) => Err(e)
           case Ok(m') => Ok((m', end)))
    case UnknownField =>
      match Beyond(d, i)
      case Err(e) => Err(e)
      case Ok(next) => Ok((m, next))
  }

  /** One field: its effect on the message and the index after it. */
  function Step<M>(s: Schema<M>, m: M, d: Bytes, i: nat): (r: Result<(M, nat)>)
    requires i < |d| < TWO_63
    ensures r.Ok? ==> i < r.value.1 <= |d|
  {
    match TagAt(d, i)
    case Err(e) => Err(e)
    case Ok(tag) => Take(s, m, d, i, tag)
  }

  /** The loop from index `i` on. */
  function DecodeFrom<M>(s: Schema<M>, m: M, d: Bytes, i: nat): Result<M>
    requires i <= |d| < TWO_63
    decreases |d| - i
  {
    if i == |d| then Ok(m)
    else
      match Step(s, m, d, i)
      case Err(e) => Err(e)
      case Ok((m', next)) => DecodeFrom(s, m', d, next)
  }

  /** Unmarshalling `d` into the message `m`, which keeps what `d` does not set. */
  function Decode<M>(s: Schema<M>, m: M, d: Bytes): Result<M>
    requires |d| < TWO_63
  {
    DecodeFrom(s, m, d, 0)
  }

  // The length prefix, as the decoders read it.
  method DecodeExtent(d: Bytes, i: nat) returns (start: nat, end: nat, ok: bool, error: Error)
    requires |d| < TWO_63
    ensures ok <==> Extent(d, i).Ok?
    ensures ok ==> Extent(d, i) == Ok((start, end))
    ensures !ok ==> Extent(d, i) == Err(error)
  {
    var v, next, good, e := DecodeVarint(d, i);
    if !good {
      return 0, 0, false, e;
    }
    var length := ToInt64(v);
    if length < 0 {
      return 0, 0, false, InvalidLength;
    }
    var post := AddInt64(next, length);
    if post < 0 {
      return 0, 0, false, InvalidLength;
    }
    if post > |d| {
      return 0, 0, false, UnexpectedEOF;
    }
    return next, post, true, UnexpectedEOF;
  }

  // The tag and its two checks, as the decoders read them.
  method DecodeTag(d: Bytes, i: nat) returns (tag: Tag, ok: bool, error: Error)
    ensures ok <==> TagAt(d, i).Ok?
    ensures ok ==> TagAt(d, i) == Ok(tag)
    ensures !ok ==> TagAt(d, i) == Err(error)
  {
    var wire, next, good, e := DecodeVarint(d, i);
    tag, ok, error := Tag(0, 0, next), false, e;
    if !good {
      return;
    }
    tag := Tag(ToInt32(wire / 8), wire % 8, next);
    if tag.wireType == 4 {
      error := EndGroupForNonGroup;
    } else if tag.number <= 0 {
      error := IllegalTag;
    } else {
      ok := true;
    }
  }

  // The default branch: step over a field the message does not know.
  method DecodeUnknown(d: Bytes, i: nat) returns (next: nat, ok: bool, error: Error)
    requires i < |d| < TWO_63
    ensures ok <==> Beyond(d, i).Ok?
    ensures ok ==> Beyond(d, i) == Ok(next)
    ensures !ok ==> Beyond(d, i) == Err(error)
  {
    var n, good, e := ScanField(d[i..]);
    if !good {
      return 0, false, e;
    }
    if n < 0 || AddInt64(i, n) < 0 {
      return 0, false, InvalidLength;
    }
    if AddInt64(i, n) > |d| {
      return 0, false, UnexpectedEOF;
    }
    return AddInt64(i, n), true, UnexpectedEOF;
  }

  // ---------------------------------------------------------------------------
  // Merging
  // ---------------------------------------------------------------------------

  /** Both decode to the same message, or both fail. */
  ghost predicate SameOutcome<M>(r: Result<M>, r': Result<M>) {
    if r.Ok? then r' == r else r'.Err?
  }

  // Errors may differ. The overflow guards see absolute indices, so that moving a
  // field to the right whose length points beyond the input can turn an unexpected
  // end into an invalid length.

  /** The end that a length at index `i` points to, if it is a valid index. */
  function LengthEnd(d: Bytes, i: nat): nat {
    match ReadVarint(d, i)
    case Err(_) => 0
    case Ok((v, start)) =>
      var length := ToInt64(v);
      if length >= 0 && start + length < TWO_63 then start + length else 0
  }

  /** The same for the field at index `i`. */
  function FieldEnd<M>(s: Schema<M>, d: Bytes, i: nat): nat
    requires i < |d| < TWO_63
  {
    match TagAt(d, i)
    case Err(_) => 0
    case Ok(tag) => TakeEnd(s, d, i, tag)
  }

  function TakeEnd<M>(s: Schema<M>, d: Bytes, i: nat, tag: Tag): nat
    requires i < |d| < TWO_63
  {
    match s.kind(tag.number)
    case VarintField => 0
    case DelimitedField => if tag.wireType == 2 then LengthEnd(d, tag.next) else 0
    case UnknownField =>
      match SkipField(d[i..])
      case Err(_) => 0
      case Ok(n) => if i + n < TWO_63 then i + n else 0
  }

  /** The same for the field at which decoding fails. */
  function FailingEnd<M>(s: Schema<M>, m: M, d: Bytes, i: nat): nat
    requires i <= |d| < TWO_63
    decreases |d| - i
  {
    if i == |d| then 0
    else
      match Step(s, m, d, i)
      case Err(_) => FieldEnd(s, d, i)
      case Ok((m', next)) => FailingEnd(s, m', d, next)
  }

  /** The error after a move to the right, if a length points to index `end`. */
  function MovedError(e: Error, offset: nat, end: nat): Error {
    if offset + end >= TWO_63 then InvalidLength else e
  }

  lemma ReadVarintPrefix(a: Bytes, b: Bytes, i: nat)
    requires ReadVarint(a, i).Ok?
    ensures ReadVarint(a + b, i) == ReadVarint(a, i)
  {
    ReadFromPrefix(a, b, i, 0);
  }

  lemma ReadVarintShift(a: Bytes, b: Bytes, i: nat)
    ensures match ReadVarint(b, i)
            case Ok((v, next)) => ReadVarint(a + b, |a| + i) == Ok((v, |a| + next))
            case Err(e) => ReadVarint(a + b, |a| + i) == Err(e)
  {
    ReadFromShift(a, b, i, 0);
  }

  lemma BeyondPrefix(a: Bytes, b: Bytes, i: nat)
    requires i < |a| && |a + b| < TWO_63
    requires Beyond(a, i).Ok?
    ensures Beyond(a + b, i) == Beyond(a, i)
  {
    SkipPrefix(a[i..], b);
    assert (a + b)[i..] == a[i..] + b;
  }

  lemma BeyondShift(a: Bytes, b: Bytes, i: nat)
    requires i < |b| && |a + b| < TWO_63
    ensures match Beyond(b, i)
            case Ok(next) => Beyond(a + b, |a| + i) == Ok(|a| + next)
            case Err(e) =>
              match SkipField(b[i..])
              case Err(_) => Beyond(a + b, |a| + i) == Err(e)
              case Ok(n) => Beyond(a + b, |a| + i) == Err(MovedError(e, |a|, if i + n < TWO_63 then i + n else 0))
  {
    assert (a + b)[|a| + i..] == b[i..];
  }

  /** A field that decodes inside `a` decodes to the same when bytes follow. */
  lemma StepPrefix<M>(s: Schema<M>, m: M, a: Bytes, b: Bytes, i: nat)
    requires i < |a| && |a + b| < TWO_63
    requires Step(s, m, a, i).Ok?
    ensures Step(s, m, a + b, i) == Step(s, m, a, i)
  {
    ReadVarintPrefix(a, b, i);
    var tag := TagAt(a, i).value;
    match s.kind(tag.number)
    case VarintField =>
      ReadVarintPrefix(a, b, tag.next);
    case DelimitedField =>
      ReadVarintPrefix(a, b, tag.next);
      var (start, end) := Extent(a, tag.next).value;
      assert (a + b)[start..end] == a[start..end];
    case UnknownField =>
      BeyondPrefix(a, b, i);
  }

  lemma TagShift(a: Bytes, b: Bytes, i: nat)
    ensures match TagAt(b, i)
            case Ok(tag) => TagAt(a + b, |a| + i) == Ok(tag.(next := |a| + tag.next))
            case Err(e) => TagAt(a + b, |a| + i) == Err(e)
  {
    ReadVarintShift(a, b, i);
  }

  /** A length-prefixed field in `b`, and the same moved to the right in `d`. */
  ghost predicate ExtentsAlike(b: Bytes, d: Bytes, offset: nat, i: nat)
    requires |b| < TWO_63 && |d| < TWO_63
  {
    match Extent(b, i)
    case Ok((start, end)) =>
      && Extent(d, offset + i) == Ok((offset + start, offset + end))
      && d[offset + start..offset + end] == b[start..end]
      && LengthEnd(b, i) == end
    case Err(e) => Extent(d, offset + i) == Err(MovedError(e, offset, LengthEnd(b, i)))
  }

  lemma ExtentShift(a: Bytes, b: Bytes, d: Bytes, i: nat)
    requires d == a + b && |d| < TWO_63
    ensures ExtentsAlike(b, d, |a|, i)
  {
    ReadVarintShift(a, b, i);
    if Extent(b, i).Ok? {
      var (start, end) := Extent(b, i).value;
      SliceShift(a, b, d, start, end);
    }
  }

  lemma SliceShift(a: Bytes, b: Bytes, d: Bytes, start: nat, end: nat)
    requires d == a + b && start <= end <= |b|
    ensures d[|a| + start..|a| + end] == b[start..end]
  {
  }

  /** A field decodes to the same whatever comes before it. */
  ghost predicate StepsAlike<M>(r: Result<(M, nat)>, r': Result<(M, nat)>, offset: nat, end: nat) {
    match r
    case Ok((m, next)) => r' == Ok((m, offset + next))
    case Err(e) => r' == Err(MovedError(e, offset, end))
  }

  lemma TakeShift<M>(s: Schema<M>, m: M, a: Bytes, b: Bytes, d: Bytes, i: nat, tag: Tag)
    requires d == a + b && i < |b| && |d| < TWO_63
    ensures StepsAlike(Take(s, m, b, i, tag), Take(s, m, d, |a| + i, tag.(next := |a| + tag.next)), |a|,
                       TakeEnd(s, b, i, tag))
  {
    match s.kind(tag.number)
    case VarintField =>
      ReadVarintShift(a, b, tag.next);
    case DelimitedField =>
      ExtentShift(a, b, d, tag.next);
      TakeDelimitedShift(s, m, b, d, |a|, i, tag);
    case UnknownField =>
      BeyondShift(a, b, i);
  }

  lemma TakeDelimitedShift<M>(s: Schema<M>, m: M, b: Bytes, d: Bytes, offset: nat, i: nat, tag: Tag)
    requires offset + |b| == |d| < TWO_63 && i < |b| && s.kind(tag.number) == DelimitedField
    requires ExtentsAlike(b, d, offset, tag.next)
    ensures StepsAlike(Take(s, m, b, i, tag), Take(s, m, d, offset + i, tag.(next := offset + tag.next)), offset,
                       TakeEnd(s, b, i, tag))
  {
  }

  lemma StepShift<M>(s: Schema<M>, m: M, a: Bytes, b: Bytes, i: nat)
    requires i < |b| && |a + b| < TWO_63
    ensures StepsAlike(Step(s, m, b, i), Step(s, m, a + b, |a| + i), |a|, FieldEnd(s, b, i))
  {
    TagShift(a, b, i);
    if TagAt(b, i).Ok? {
      TakeShift(s, m, a, b, a + b, i, TagAt(b, i).value);
    }
  }

  lemma {:induction false} DecodeFirstPart<M>(s: Schema<M>, m: M, a: Bytes, b: Bytes, i: nat)
    requires i <= |a| && |a + b| < TWO_63
    requires DecodeFrom(s, m, a, i).Ok?
    ensures DecodeFrom(s, m, a + b, i) == DecodeFrom(s, DecodeFrom(s, m, a, i).value, a + b, |a|)
    decreases |a| - i
  {
    if i < |a| {
      StepPrefix(s, m, a, b, i);
      var (m', next) := Step(s, m, a, i).value;
      DecodeFirstPart(s, m', a, b, next);
    }
  }

  lemma {:induction false} DecodeSecondPart<M>(s: Schema<M>, m: M, a: Bytes, b: Bytes, d: Bytes, i: nat)
    requires d == a + b && i <= |b| && |d| < TWO_63
    ensures match DecodeFrom(s, m, b, i)
            case Ok(m') => DecodeFrom(s, m, d, |a| + i) == Ok(m')
            case Err(e) => DecodeFrom(s, m, d, |a| + i) == Err(MovedError(e, |a|, FailingEnd(s, m, b, i)))
    decreases |b| - i
  {
    if i < |b| {
      var r, r' := Step(s, m, b, i), Step(s, m, d, |a| + i);
      assert StepsAlike(r, r', |a|, FieldEnd(s, b, i)) by {
        StepShift(s, m, a, b, i);
      }
      if r.Ok? {
        DecodeSecondPart(s, r.value.0, a, b, d, r.value.1);
      }
    }
  }

  /** The merge law: decoding a concatenation is decoding the parts in turn. */
  lemma MergeLaw<M>(s: Schema<M>, m: M, a: Bytes, b: Bytes)
    requires |a + b| < TWO_63
    requires Decode(s, m, a).Ok?
    ensures SameOutcome(Decode(s, Decode(s, m, a).value, b), Decode(s, m, a + b))
  {
    DecodeFirstPart(s, m, a, b, 0);
    DecodeSecondPart(s, Decode(s, m, a).value, a, b, a + b, 0);
  }

  lemma {:induction false} FarEndIsUnexpected<M>(s: Schema<M>, m: M, d: Bytes, i: nat)
    requires i <= |d| < TWO_63 && FailingEnd(s, m, d, i) > |d|
    ensures DecodeFrom(s, m, d, i) == Err(UnexpectedEOF)
    decreases |d| - i
  {
    match Step(s, m, d, i)
    case Ok((m', next)) => FarEndIsUnexpected(s, m', d, next);
    case Err(e) => assert e == UnexpectedEOF;
  }

  lemma FailsAfter<M>(s: Schema<M>, m: M, a: Bytes, m1: M, b: Bytes, d: Bytes)
    requires d == a + b && |d| < TWO_63 && Decode(s, m, a) == Ok(m1) && Decode(s, m1, b).Err?
    ensures Decode(s, m, d) == Err(MovedError(Decode(s, m1, b).error, |a|, FailingEnd(s, m1, b, 0)))
    ensures |a| + FailingEnd(s, m1, b, 0) >= TWO_63 ==> Decode(s, m1, b) == Err(UnexpectedEOF)
  {
    DecodeFirstPart(s, m, a, b, 0);
    DecodeSecondPart(s, m1, a, b, d, 0);
    if |a| + FailingEnd(s, m1, b, 0) >= TWO_63 {
      FarEndIsUnexpected(s, m1, b, 0);
    }
  }

  /** Both report the same error, too, if and only if the length at which the second
      part fails, if any, still points below 2^63 when that part has been moved. */
  lemma MergeErrorsIff<M>(s: Schema<M>, m: M, a: Bytes, b: Bytes)
    requires |a + b| < TWO_63
    requires Decode(s, m, a).Ok? && Decode(s, Decode(s, m, a).value, b).Err?
    ensures Decode(s, m, a + b) == Decode(s, Decode(s, m, a).value, b) <==>
              |a| + FailingEnd(s, Decode(s, m, a).value, b, 0) < TWO_63
  {
    FailsAfter(s, m, a, Decode(s, m, a).value, b, a + b);
  }

  // ---------------------------------------------------------------------------
  // Success means the fields tile the input
  // ---------------------------------------------------------------------------

  /** A piece of input that is one field, from first to last byte. */
  predicate IsOneField<M>(s: Schema<M>, m: M, piece: Bytes) {
    0 < |piece| < TWO_63 && Step(s, m, piece, 0).Ok? && Step(s, m, piece, 0).value.1 == |piece|
  }

  function Concat(pieces: seq<Bytes>): Bytes {
    if pieces == [] then [] else pieces[0] + Concat(pieces[1..])
  }

  /** The pieces, each a field of its own, lead from message `m` to message `m'`. */
  ghost predicate Tiles<M>(s: Schema<M>, m: M, pieces: seq<Bytes>, m': M)
    decreases |pieces|
  {
    if pieces == [] then m' == m
    else IsOneField(s, m, pieces[0]) && Tiles(s, Step(s, m, pieces[0], 0).value.0, pieces[1..], m')
  }

  lemma StepOfSuffix<M>(s: Schema<M>, m: M, d: Bytes)
    requires 0 < |d| < TWO_63 && Step(s, m, d, 0).Ok?
    ensures var piece := d[..Step(s, m, d, 0).value.1];
            IsOneField(s, m, piece) && Step(s, m, piece, 0) == Step(s, m, d, 0)
  {
    var n := Step(s, m, d, 0).value.1;
    VarintOfPrefix(d, 0, n);
    var tag := TagAt(d, 0).value;
    match s.kind(tag.number)
    case VarintField =>
      VarintOfPrefix(d, tag.next, n);
    case DelimitedField =>
      VarintOfPrefix(d, tag.next, n);
      var (start, end) := Extent(d, tag.next).value;
      assert d[..n][start..end] == d[start..end];
    case UnknownField =>
      assert d[0..] == d && d[..n][0..] == d[..n];
      var f := SkippedIsField(d);
      assert d[..n] == Encode(f) + [];
      SkipIsExact(f, []);
  }

  lemma VarintOfPrefix(d: Bytes, i: nat, n: nat)
    requires ReadVarint(d, i).Ok? && ReadVarint(d, i).value.1 <= n <= |d|
    ensures ReadVarint(d[..n], i) == ReadVarint(d, i)
  {
    var j := ReadVarint(d, i).value.1;
    ReadFromTake(d, i, 0);
    ReadFromPrefix(d[..j], d[j..n], i, 0);
    assert d[..j] + d[j..n] == d[..n];
  }

  /** The first field of a successful decode stands by itself, and the rest decodes
      on from there. */
  lemma FirstPiece<M>(s: Schema<M>, m: M, d: Bytes) returns (m': M, n: nat)
    requires 0 < |d| < TWO_63 && Decode(s, m, d).Ok?
    ensures 0 < n <= |d| && IsOneField(s, m, d[..n]) && Step(s, m, d[..n], 0).value.0 == m'
    ensures Decode(s, m', d[n..]) == Decode(s, m, d)
  {
    m', n := Step(s, m, d, 0).value.0, Step(s, m, d, 0).value.1;
    StepOfSuffix(s, m, d);
    var piece, rest := d[..n], d[n..];
    assert d == piece + rest;
    StepPrefix(s, m, piece, rest, 0);
    RestDecodes(s, m', piece, rest, d);
  }

  lemma RestDecodes<M>(s: Schema<M>, m: M, piece: Bytes, rest: Bytes, d: Bytes)
    requires d == piece + rest && |d| < TWO_63 && DecodeFrom(s, m, d, |piece|).Ok?
    ensures Decode(s, m, rest) == DecodeFrom(s, m, d, |piece|)
  {
    DecodeSecondPart(s, m, piece, rest, d, 0);
  }

  /** The input of a successful decode splits into fields, and nothing is left over. */
  lemma {:induction false} DecodedIsTiled<M>(s: Schema<M>, m: M, d: Bytes) returns (pieces: seq<Bytes>)
    requires |d| < TWO_63 && Decode(s, m, d).Ok?
    ensures Concat(pieces) == d && Tiles(s, m, pieces, Decode(s, m, d).value)
    decreases |d|
  {
    if d == [] {
      pieces := [];
    } else {
      var m', n := FirstPiece(s, m, d);
      var others := DecodedIsTiled(s, m', d[n..]);
      pieces := [d[..n]] + others;
      assert pieces[1..] == others;
      assert d[..n] + d[n..] == d;
    }
  }

  /** Conversely, any such tiling decodes. */
  lemma {:induction false} TiledIsDecoded<M>(s: Schema<M>, m: M, pieces: seq<Bytes>, m': M)
    requires Tiles(s, m, pieces, m') && |Concat(pieces)| < TWO_63
    ensures Decode(s, m, Concat(pieces)) == Ok(m')
    decreases |pieces|
  {
    if pieces != [] {
      var next := Step(s, m, pieces[0], 0).value.0;
      TiledIsDecoded(s, next, pieces[1..], m');
      assert DecodeFrom(s, next, pieces[0], |pieces[0]|) == Ok(next);
      MergeLaw(s, m, pieces[0], Concat(pieces[1..]));
    }
  }

  // ---------------------------------------------------------------------------
  // Unknown fields
  // ---------------------------------------------------------------------------

  /** The number in a field's tag, as the decoder sees it. */
  function NumberOf(f: Field): Int32
    requires WellFormed(f)
  {
    ToInt32(VarintValue(f.tag) / 8)
  }

  /** A field whose number the message does not know. */
  predicate IsForeign<M>(s: Schema<M>, f: Field) {
    WellFormed(f) && NumberOf(f) > 0 && s.kind(NumberOf(f)) == UnknownField
  }

  lemma ForeignFieldIsIgnored<M>(s: Schema<M>, m: M, f: Field)
    requires IsForeign(s, f) && |Encode(f)| < TWO_63
    ensures Decode(s, m, Encode(f)) == Ok(m)
  {
    var d := Encode(f);
    var body := d[|f.tag|..];
    assert d == [] + f.tag + body;
    ReadVarintAt([], f.tag, body);
    assert VarintValue(f.tag) % 8 != 4;
    assert d[0..] == d == Encode(f) + [];
    SkipIsExact(f, []);
    assert Beyond(d, 0) == Ok(|d|);
    assert Step(s, m, d, 0) == Ok((m, |d|));
    assert DecodeFrom(s, m, d, |d|) == Ok(m);
  }

  /** A well-formed field with an unused number, put anywhere between two fields,
      changes neither the decoded message nor whether decoding succeeds. */
  lemma InsertionIsInvisible<M>(s: Schema<M>, m: M, a: Bytes, f: Field, b: Bytes)
    requires IsForeign(s, f)
    requires |a + Encode(f) + b| < TWO_63
    requires Decode(s, m, a).Ok?
    ensures SameOutcome(Decode(s, m, a + b), Decode(s, m, a + Encode(f) + b))
  {
    var m1 := Decode(s, m, a).value;
    ForeignFieldIsIgnored(s, m1, f);
    MergeLaw(s, m, a, b);
    MergeLaw(s, m, a, Encode(f));
    MergeLaw(s, m, a + Encode(f), b);
  }

  /** The error of a failing decode stays the same, too, if and only if the length at
      which it fails points below 2^63 after the insertion, or did not before it. */
  lemma InsertionErrorsIff<M>(s: Schema<M>, m: M, a: Bytes, f: Field, b: Bytes)
    requires IsForeign(s, f)
    requires |a + Encode(f) + b| < TWO_63
    requires Decode(s, m, a).Ok? && Decode(s, Decode(s, m, a).value, b).Err?
    ensures var end := FailingEnd(s, Decode(s, m, a).value, b, 0);
            Decode(s, m, a + b) == Decode(s, m, a + Encode(f) + b) <==>
              |a| + |Encode(f)| + end < TWO_63 || |a| + end >= TWO_63
  {
    var m1 := Decode(s, m, a).value;
    ForeignFieldIsIgnored(s, m1, f);
    MergeLaw(s, m, a, Encode(f));
    FailsAfter(s, m, a, m1, b, a + b);
    FailsAfter(s, m, a + Encode(f), m1, b, a + Encode(f) + b);
  }
}
