/** Bytes, Go's fixed-width integers and base-128 varints, as the generated
    marshalling code uses them.

    Go's bit operations are written as arithmetic: `b & 0x7F` is `b % 128`,
    `v >> 7` is `v / 128`, and `acc |= x << (7*k)` is an addition reduced to 64
    bits, because the bits of `x << (7*k)` lie above all those already in `acc`.
  */
module Wire {
  type Byte = x: int | 0 <= x < 256
  type Bytes = seq<Byte>

  const TWO_31: int := 0x8000_0000
  const TWO_32: int := 0x1_0000_0000
  const TWO_63: int := 0x8000_0000_0000_0000
  const TWO_64: int := 0x1_0000_0000_0000_0000

  /** Values of Go's `uint64`, `int` (64 bits) and `int32`. */
  type Uint64 = x: int | 0 <= x < TWO_64
  type Int64 = x: int | -TWO_63 <= x < TWO_63
  type Int32 = x: int | -TWO_31 <= x < TWO_31

  datatype Error =
    | IntOverflow
    | UnexpectedEOF
    | InvalidLength
    | EndGroupForNonGroup
    | IllegalTag
    | WrongWireType
    | UnexpectedEndOfGroup
    | IllegalWireType

  datatype Result<+T> = Ok(value: T) | Err(error: Error)

  /** The Go conversion `int(v)` of a `uint64`. */
  function ToInt64(v: Uint64): Int64 {
    if v < TWO_63 then v else v - TWO_64
  }

  /** The Go conversion `uint64(v)` of a signed value. */
  function ToUint64(v: Int64): Uint64 {
    if v < 0 then v + TWO_64 else v
  }

  /** The Go conversion `int32(v)`: keep 32 bits, read them as signed. */
  function ToInt32(v: Uint64): Int32 {
    var low := v % TWO_32;
    if low < TWO_31 then low else low - TWO_32
  }

  /** The sum of two `int` values, with wrap-around. */
  function AddInt64(a: Int64, b: Int64): Int64 {
    var sum := a + b;
    if sum >= TWO_63 then sum - TWO_64
    else if sum < -TWO_63 then sum + TWO_64
    else sum
  }

  /** An `int32` survives the trip through the sign-extended `uint64` of the wire. */
  lemma Int32RoundTrip(p: Int32)
    ensures ToInt32(ToUint64(p)) == p
  {
    if p < 0 {
      assert p + TWO_64 == (TWO_32 - 1) * TWO_32 + (p + TWO_32);
      assert (p + TWO_64) % TWO_32 == p + TWO_32;
    }
  }

  // ---------------------------------------------------------------------------
  // Writing varints
  // ---------------------------------------------------------------------------

  /** The base-128 encoding of `v`, low group first. */
  function Varint(v: nat): (bs: Bytes)
    ensures bs != []
  {
    if v < 128 then [v] else [v % 128 + 128] + Varint(v / 128)
  }

  /** `math/bits.Len64`: the number of bits needed to write `x`. */
  function BitLen(x: nat): nat {
    if x == 0 then 0 else 1 + BitLen(x / 2)
  }

  /** `x | 1` */
  function WithLowBit(x: nat): nat {
    if x % 2 == 0 then x + 1 else x
  }

  /** The generated `sov` functions: the size of a varint, without a loop. */
  function Sov(x: nat): nat {
    (BitLen(WithLowBit(x)) + 6) / 7
  }

  /** The closed form counts exactly the bytes the encoding loop writes. */
  lemma {:induction false} SovIsVarintLength(x: nat)
    ensures Sov(x) == |Varint(x)|
  {
    if x < 128 {
      BitLenSmall(WithLowBit(x));
    } else {
      BitLenLowBit(x);
      BitLenLowBit(x / 128);
      BitLenShift7(x);
      SovIsVarintLength(x / 128);
    }
  }

  lemma BitLenSmall(x: nat)
    requires 1 <= x < 128
    ensures 1 <= BitLen(x) <= 7
  {
    assert x / 2 < 64 && x / 2 / 2 < 32 && x / 2 / 2 / 2 < 16 && x / 2 / 2 / 2 / 2 < 8;
    assert BitLen(x / 2 / 2 / 2 / 2) <= 3;
    assert BitLen(x / 2 / 2) <= 2 + BitLen(x / 2 / 2 / 2 / 2);
    assert BitLen(x) <= 2 + BitLen(x / 2 / 2);
  }

  lemma BitLenLowBit(x: nat)
    requires 1 <= x
    ensures BitLen(WithLowBit(x)) == BitLen(x)
  {
    assert WithLowBit(x) / 2 == x / 2;
  }

  lemma BitLenShift7(x: nat)
    requires 128 <= x
    ensures BitLen(x) == 7 + BitLen(x / 128)
  {
    var a := x / 2 / 2;
    var b := a / 2 / 2;
    assert BitLen(x) == 2 + BitLen(a);
    assert BitLen(a) == 2 + BitLen(b);
    assert BitLen(b) == 2 + BitLen(b / 2 / 2);
    assert b / 2 / 2 / 2 == x / 128;
  }

  /** A varint of a 64-bit value takes at most ten bytes. */
  lemma VarintAtMostTen(v: Uint64)
    ensures |Varint(v)| <= 10
  {
    VarintLength(v, 10);
  }

  lemma {:induction false} VarintLength(v: nat, k: nat)
    requires 1 <= k && v < Pow128(k)
    ensures |Varint(v)| <= k
  {
    if v >= 128 {
      assert Pow128(k) == 128 * Pow128(k - 1);
      VarintLength(v / 128, k - 1);
    }
  }

  function Pow128(k: nat): nat {
    if k == 0 then 1 else 128 * Pow128(k - 1)
  }

  /** `now` is `was` with `bs` copied over it from index `at` on. */
  ghost predicate Written(now: Bytes, was: Bytes, at: int, bs: Bytes)
    decreases |bs|
  {
    && 0 <= at <= |was| - |bs|
    && if bs == [] then now == was else Written(now, was[at := bs[0]], at + 1, bs[1..])
  }

  /** That is: the bytes are there, and all other bytes are as before. */
  lemma {:induction false} WrittenPointwise(now: Bytes, was: Bytes, at: nat, bs: Bytes)
    requires at + |bs| <= |was|
    ensures Written(now, was, at, bs) <==>
              && |now| == |was|
              && forall k :: 0 <= k < |was| ==> now[k] == if at <= k < at + |bs| then bs[k - at] else was[k]
    decreases |bs|
  {
    if bs != [] {
      WrittenPointwise(now, was[at := bs[0]], at + 1, bs[1..]);
      if |now| == |was| && forall k :: 0 <= k < |was| ==> now[k] == if at <= k < at + |bs| then bs[k - at] else was[k] {
        assert now[at] == bs[0];
      }
    }
  }

  /** Writing `x` just before `y` is writing `x + y`. */
  lemma WrittenBefore(now: Bytes, mid: Bytes, was: Bytes, at: nat, x: Bytes, y: Bytes)
    requires Written(mid, was, at + |x|, y) && Written(now, mid, at, x)
    ensures Written(now, was, at, x + y)
  {
    WrittenPointwise(mid, was, at + |x|, y);
    WrittenPointwise(now, mid, at, x);
    WrittenPointwise(now, was, at, x + y);
  }

  /** Writing over everything leaves nothing else. */
  lemma WrittenAll(now: Bytes, was: Bytes, bs: Bytes)
    requires Written(now, was, 0, bs) && |was| == |bs|
    ensures now == bs
  {
    WrittenPointwise(now, was, 0, bs);
  }

  // Writes the varint of v so that it ends just before `offset`; returns where it starts.
  method EncodeVarint(buf: array<Byte>, offset: nat, v: Uint64) returns (base: nat)
    requires Sov(v) <= offset <= buf.Length
    modifies buf
    ensures base == offset - Sov(v)
    ensures Written(buf[..], old(buf[..]), base, Varint(v))
  {
    SovIsVarintLength(v);
    base := offset - Sov(v);
    WriteGroups(buf, base, v);
  }

  // The loop of it: seven bits at a time, low ones first.
  method WriteGroups(buf: array<Byte>, base: nat, v: nat)
    requires base + |Varint(v)| <= buf.Length
    modifies buf
    ensures Written(buf[..], old(buf[..]), base, Varint(v))
  {
    ghost var whole := Varint(v);
    var at: nat, rest: nat := base, v;
    while rest >= 128
      invariant base <= at < base + |whole|
      invariant whole[at - base..] == Varint(rest)
      invariant Written(buf[..], old(buf[..]), base, whole[..at - base])
      decreases rest
    {
      VarintTail(whole, at - base, rest);
      WrittenNext(buf[..], old(buf[..]), base, whole, at - base);
      buf[at] := rest % 128 + 128;
      rest := rest / 128;
      at := at + 1;
    }
    VarintTail(whole, at - base, rest);
    WrittenNext(buf[..], old(buf[..]), base, whole, at - base);
    buf[at] := rest;
    assert whole[..at + 1 - base] == whole;
  }

  lemma WrittenNext(now: Bytes, was: Bytes, at: nat, bs: Bytes, j: nat)
    requires j < |bs| && at + |bs| <= |was|
    requires Written(now, was, at, bs[..j])
    ensures |now| == |was|
    ensures Written(now[at + j := bs[j]], was, at, bs[..j + 1])
  {
    WrittenPointwise(now, was, at, bs[..j]);
    WrittenPointwise(now[at + j := bs[j]], was, at, bs[..j + 1]);
  }

  lemma VarintTail(whole: Bytes, j: nat, rest: nat)
    requires j < |whole| && whole[j..] == Varint(rest)
    ensures rest >= 128 ==> j + 1 < |whole| && whole[j] == rest % 128 + 128 && whole[j + 1..] == Varint(rest / 128)
    ensures rest < 128 ==> j + 1 == |whole| && whole[j] == rest
  {
    assert whole[j..][0] == whole[j];
    assert whole[j..][1..] == whole[j + 1..];
  }

  lemma Assoc<T>(a: seq<T>, b: seq<T>, c: seq<T>)
    ensures a + (b + c) == a + b + c
  {
  }

  // ---------------------------------------------------------------------------
  // Reading varints
  // ---------------------------------------------------------------------------

  /** A varint that was read: its unreduced value and the index after it. */
  datatype Read = Got(raw: nat, next: nat) | Bad(error: Error)

  /** The varint at index `i`, of which `k` bytes are already read. At most ten
      bytes are taken, since Go gives up once the shift reaches 64. */
  function ReadFrom(data: Bytes, i: nat, k: nat): (r: Read)
    ensures r.Got? ==> i < r.next <= |data|
    decreases |data| - i
  {
    if k >= 10 then Bad(IntOverflow)
    else if i >= |data| then Bad(UnexpectedEOF)
    else if data[i] < 128 then Got(data[i], i + 1)
    else
      match ReadFrom(data, i + 1, k + 1)
      case Got(rest, next) => Got(data[i] % 128 + 128 * rest, next)
      case Bad(e) => Bad(e)
  }

  /** What a reading loop yields for the varint at `i`: 64 bits of it. */
  function ReadVarint(data: Bytes, i: nat): (r: Result<(Uint64, nat)>)
    ensures r.Ok? ==> i < r.value.1 <= |data|
  {
    match ReadFrom(data, i, 0)
    case Got(raw, next) => Ok((raw % TWO_64, next))
    case Bad(e) => Err(e)
  }

  /** Given that the first k groups of a varint add up to `raw`, the bytes from
      index `at` on complete it to `whole`. */
  ghost predicate Completes(data: Bytes, at: nat, k: nat, raw: nat, whole: Read) {
    match ReadFrom(data, at, k)
    case Got(rest, end) => whole == Got(raw + Pow128(k) * rest, end)
    case Bad(e) => whole == Bad(e)
  }

  // The reading loop, as it stands in every decoder.
  method DecodeVarint(data: Bytes, start: nat) returns (value: Uint64, next: nat, ok: bool, error: Error)
    ensures ok <==> ReadVarint(data, start).Ok?
    ensures ok ==> ReadVarint(data, start) == Ok((value, next))
    ensures !ok ==> ReadVarint(data, start) == Err(error)
  {
    value, next, ok, error := 0, start, false, IntOverflow;
    ghost var raw: nat := 0;
    ghost var whole := ReadFrom(data, start, 0);
    var k := 0; // the shift is 7 * k
    while true
      invariant 0 <= k <= 10 && next == start + k
      invariant value == raw % TWO_64
      invariant !ok
      invariant Completes(data, next, k, raw, whole)
      decreases 10 - k
    {
      if 7 * k >= 64 {
        error := IntOverflow;
        return;
      }
      if next >= |data| {
        error := UnexpectedEOF;
        return;
      }
      var b := data[next];
      var group := b % 128 * Pow128(k);
      ModAbsorbs(raw, group);
      CompletesNext(data, next, k, raw, whole);
      value := (value + group) % TWO_64;
      raw := raw + group;
      next := next + 1;
      if b < 128 {
        ok := true;
        return;
      }
      k := k + 1;
    }
  }

  lemma CompletesNext(data: Bytes, at: nat, k: nat, raw: nat, whole: Read)
    requires k < 10 && at < |data|
    requires Completes(data, at, k, raw, whole)
    ensures data[at] < 128 ==> whole == Got(raw + data[at] % 128 * Pow128(k), at + 1)
    ensures data[at] >= 128 ==> Completes(data, at + 1, k + 1, raw + data[at] % 128 * Pow128(k), whole)
  {
    var b := data[at];
    if b < 128 {
      assert Pow128(k) * b == b % 128 * Pow128(k);
    } else if ReadFrom(data, at + 1, k + 1).Got? {
      Distribute(Pow128(k), b % 128, ReadFrom(data, at + 1, k + 1).raw);
    }
  }

  lemma Distribute(weight: nat, group: nat, rest: nat)
    ensures weight * (group + 128 * rest) == group * weight + 128 * weight * rest
  {
    assert weight * (group + 128 * rest) == weight * group + weight * (128 * rest);
    assert weight * (128 * rest) == 128 * weight * rest;
  }

  lemma ModAbsorbs(a: nat, b: nat)
    ensures (a % TWO_64 + b) % TWO_64 == (a + b) % TWO_64
  {
    var q := a / TWO_64;
    assert a == q * TWO_64 + a % TWO_64;
    ModShift(a % TWO_64 + b, q);
  }

  lemma {:induction false} ModShift(x: nat, q: nat)
    ensures (x + q * TWO_64) % TWO_64 == x % TWO_64
  {
    if q > 0 {
      ModShift(x, q - 1);
      assert x + q * TWO_64 == x + (q - 1) * TWO_64 + TWO_64;
    }
  }

  /** Reading looks only at the varint itself: appending bytes changes nothing. */
  lemma {:induction false} ReadFromPrefix(a: Bytes, b: Bytes, i: nat, k: nat)
    requires ReadFrom(a, i, k).Got?
    ensures ReadFrom(a + b, i, k) == ReadFrom(a, i, k)
    decreases 10 - k
  {
    if a[i] >= 128 {
      ReadFromPrefix(a, b, i + 1, k + 1);
    }
  }

  /** Reading does not depend on what comes before. */
  lemma {:induction false} ReadFromShift(a: Bytes, b: Bytes, i: nat, k: nat)
    ensures match ReadFrom(b, i, k)
            case Got(raw, next) => ReadFrom(a + b, |a| + i, k) == Got(raw, |a| + next)
            case Bad(e) => ReadFrom(a + b, |a| + i, k) == Bad(e)
    decreases 10 - k
  {
    if k < 10 && i < |b| && b[i] >= 128 {
      ReadFromShift(a, b, i + 1, k + 1);
    }
  }

  /** A well-formed varint: one to ten bytes, all but the last with the high bit set. */
  predicate IsVarint(bs: Bytes) {
    ReadFrom(bs, 0, 0).Got? && ReadFrom(bs, 0, 0).next == |bs|
  }

  /** The 64 bits that a well-formed varint stands for. */
  function VarintValue(bs: Bytes): Uint64
    requires IsVarint(bs)
  {
    ReadFrom(bs, 0, 0).raw % TWO_64
  }

  lemma {:induction false} ReadWrittenFrom(v: nat, k: nat)
    requires |Varint(v)| + k <= 10
    ensures ReadFrom(Varint(v), 0, k) == Got(v, |Varint(v)|)
    decreases v
  {
    if v >= 128 {
      ReadWrittenFrom(v / 128, k + 1);
      ReadFromShift([v % 128 + 128], Varint(v / 128), 0, k + 1);
    }
  }

  /** Every 64-bit value is read back from its encoding. */
  lemma VarintRoundTrip(v: Uint64)
    ensures IsVarint(Varint(v)) && VarintValue(Varint(v)) == v
  {
    VarintAtMostTen(v);
    ReadWrittenFrom(v, 0);
  }

  /** A varint in the middle of other bytes is read exactly. */
  lemma ReadVarintAt(a: Bytes, v: Bytes, b: Bytes)
    requires IsVarint(v)
    ensures ReadVarint(a + v + b, |a|) == Ok((VarintValue(v), |a| + |v|))
  {
    ReadFromPrefix(v, b, 0, 0);
    ReadFromShift(a, v + b, 0, 0);
    assert a + (v + b) == a + v + b;
  }
}
