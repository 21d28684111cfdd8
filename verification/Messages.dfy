/** Four generated messages: `AccessConfig` inside `MsgStoreCodeAdmin`, and
    `DenomAuthorityMetadata` inside `GenesisDenom`. Each has a value type, its
    encoding as a byte string, and a schema; the classes below carry the code that
    sizes, marshals back to front into a buffer, and unmarshals in place.
    Go strings are byte strings, and a nil slice is an empty one.
  */
module Messages {
  import opened Options
  import opened Wire
  import opened Decoder

  datatype Access = Access(permission: Int32, addresses: seq<Bytes>)
  datatype StoreCode = StoreCode(authority: Bytes, creator: Bytes, code: Bytes, permission: Option<Access>)
  datatype Authority = Authority(admin: Bytes)
  datatype Denom = Denom(denom: Bytes, authority: Authority)

  const NO_ACCESS := Access(0, [])
  const NO_STORE_CODE := StoreCode([], [], [], None)
  const NO_AUTHORITY := Authority([])
  const NO_DENOM := Denom([], NO_AUTHORITY)

  // ---------------------------------------------------------------------------
  // Encodings
  // ---------------------------------------------------------------------------

  /** A length-prefixed field; field numbers up to 15 have one-byte tags. */
  function Delim(number: nat, bs: Bytes): Bytes
    requires 1 <= number <= 15
  {
    [number * 8 + 2] + Varint(|bs|) + bs
  }

  /** The same, left out when empty. */
  function DelimIfAny(number: nat, bs: Bytes): Bytes
    requires 1 <= number <= 15
  {
    if bs == [] then [] else Delim(number, bs)
  }

  function PermissionBytes(p: Int32): Bytes {
    if p == 0 then [] else [8] + Varint(ToUint64(p))
  }

  function AddressesBytes(addresses: seq<Bytes>): Bytes {
    if addresses == [] then [] else Delim(2, addresses[0]) + AddressesBytes(addresses[1..])
  }

  function AccessBytes(m: Access): Bytes {
    PermissionBytes(m.permission) + AddressesBytes(m.addresses)
  }

  function NestedAccessBytes(p: Option<Access>): Bytes {
    if p.None? then [] else Delim(4, AccessBytes(p.value))
  }

  function StoreCodeBytes(m: StoreCode): Bytes {
    DelimIfAny(1, m.authority) + (DelimIfAny(2, m.creator) + (DelimIfAny(3, m.code) +
    NestedAccessBytes(m.permission)))
  }

  function AuthorityBytes(m: Authority): Bytes {
    DelimIfAny(1, m.admin)
  }

  /** The nested metadata is not optional: it is written even when empty. */
  function DenomBytes(m: Denom): Bytes {
    DelimIfAny(1, m.denom) + Delim(2, AuthorityBytes(m.authority))
  }

  // ---------------------------------------------------------------------------
  // Schemas
  // ---------------------------------------------------------------------------

  function AccessSchema(): Schema<Access> {
    Schema((n: Int32) => if n == 1 then VarintField else if n == 2 then DelimitedField else UnknownField,
           (m: Access, n: Int32, v: Uint64) => m.(permission := ToInt32(v)),
           (m: Access, n: Int32, bs: Bytes) => Ok(m.(addresses := m.addresses + [bs])))
  }

  function StoreCodeSchema(): Schema<StoreCode> {
    Schema((n: Int32) => if 1 <= n <= 4 then DelimitedField else UnknownField,
           (m: StoreCode, n: Int32, v: Uint64) => m,
           (m: StoreCode, n: Int32, bs: Bytes) => SetStoreCode(m, n, bs))
  }

  function SetStoreCode(m: StoreCode, n: Int32, bs: Bytes): Result<StoreCode> {
    if n == 1 then Ok(m.(authority := bs))
    else if n == 2 then Ok(m.(creator := bs))
    else if n == 3 then Ok(m.(code := bs))
    else if |bs| >= TWO_63 then Err(InvalidLength) // no Go slice is that long
    else
      match Decode(AccessSchema(), if m.permission.None? then NO_ACCESS else m.permission.value, bs)
      case Ok(a) => Ok(m.(permission := Some(a)))
      case Err(e) => Err(e)
  }

  function AuthoritySchema(): Schema<Authority> {
    Schema((n: Int32) => if n == 1 then DelimitedField else UnknownField,
           (m: Authority, n: Int32, v: Uint64) => m,
           (m: Authority, n: Int32, bs: Bytes) => Ok(Authority(bs)))
  }

  function DenomSchema(): Schema<Denom> {
    Schema((n: Int32) => if n == 1 || n == 2 then DelimitedField else UnknownField,
           (m: Denom, n: Int32, v: Uint64) => m,
           (m: Denom, n: Int32, bs: Bytes) => SetDenom(m, n, bs))
  }

  function SetDenom(m: Denom, n: Int32, bs: Bytes): Result<Denom> {
    if n == 1 then Ok(m.(denom := bs))
    else if |bs| >= TWO_63 then Err(InvalidLength)
    else
      match Decode(AuthoritySchema(), m.authority, bs)
      case Ok(a) => Ok(m.(authority := a))
      case Err(e) => Err(e)
  }

  // ---------------------------------------------------------------------------
  // Round trips
  // ---------------------------------------------------------------------------

  lemma ShortTag(t: nat, rest: Bytes)
    requires 8 <= t < 128 && t % 8 != 4
    ensures TagAt([t] + rest, 0) == Ok(Tag(t / 8, t % 8, 1))
  {
    assert ([t] + rest)[0] == t;
  }

  lemma DelimDecodes<M>(s: Schema<M>, m: M, number: nat, bs: Bytes)
    requires 1 <= number <= 15 && s.kind(number) == DelimitedField
    requires |Delim(number, bs)| < TWO_63
    ensures Decode(s, m, Delim(number, bs)) == s.setBytes(m, number, bs)
  {
    DelimShape(number, bs);
    ShortTag(number * 8 + 2, Varint(|bs|) + bs);
    DelimExtent(number, bs);
    DecodeIsStep(s, m, Delim(number, bs));
  }

  lemma DelimShape(number: nat, bs: Bytes)
    requires 1 <= number <= 15
    ensures Delim(number, bs) == [number * 8 + 2] + (Varint(|bs|) + bs)
    ensures Delim(number, bs)[1 + |Varint(|bs|)|..|Delim(number, bs)|] == bs
  {
  }

  lemma DelimExtent(number: nat, bs: Bytes)
    requires 1 <= number <= 15 && |Delim(number, bs)| < TWO_63
    ensures Extent(Delim(number, bs), 1) == Ok((1 + |Varint(|bs|)|, |Delim(number, bs)|))
  {
    VarintRoundTrip(|bs|);
    ReadVarintAt([number * 8 + 2], Varint(|bs|), bs);
  }

  lemma VarintDecodes<M>(s: Schema<M>, m: M, number: nat, v: Uint64)
    requires 1 <= number <= 15 && s.kind(number) == VarintField
    ensures |[number * 8] + Varint(v)| <= 11
    ensures Decode(s, m, [number * 8] + Varint(v)) == Ok(s.setVarint(m, number, v))
  {
    var d := [number * 8] + Varint(v);
    VarintAtMostTen(v);
    ShortTag(number * 8, Varint(v));
    VarintAfterTag(number * 8, v);
    assert Step(s, m, d, 0) == Ok((s.setVarint(m, number, v), |d|));
    DecodeIsStep(s, m, d);
  }

  lemma VarintAfterTag(t: Byte, v: Uint64)
    ensures ReadVarint([t] + Varint(v), 1) == Ok((v, |[t] + Varint(v)|))
  {
    VarintRoundTrip(v);
    assert [t] + Varint(v) == [t] + Varint(v) + [];
    ReadVarintAt([t], Varint(v), []);
  }

  lemma DecodeIsStep<M>(s: Schema<M>, m: M, d: Bytes)
    requires 0 < |d| < TWO_63
    requires Step(s, m, d, 0).Ok? ==> Step(s, m, d, 0).value.1 == |d|
    ensures match Step(s, m, d, 0)
            case Ok((m', _)) => Decode(s, m, d) == Ok(m')
            case Err(e) => Decode(s, m, d) == Err(e)
  {
    var r := Step(s, m, d, 0);
    if r.Ok? {
      assert DecodeFrom(s, r.value.0, d, |d|) == Ok(r.value.0);
    }
  }

  /** Decoding one part after another, when the first part succeeds. */
  lemma DecodeThen<M>(s: Schema<M>, m: M, a: Bytes, m1: M, b: Bytes, m2: M)
    requires |a + b| < TWO_63
    requires Decode(s, m, a) == Ok(m1) && Decode(s, m1, b) == Ok(m2)
    ensures Decode(s, m, a + b) == Ok(m2)
  {
    MergeLaw(s, m, a, b);
  }

  lemma {:induction false} AddressesDecode(m: Access, addresses: seq<Bytes>)
    requires |AddressesBytes(addresses)| < TWO_63
    ensures Decode(AccessSchema(), m, AddressesBytes(addresses)) == Ok(m.(addresses := m.addresses + addresses))
    decreases |addresses|
  {
    if addresses == [] {
      assert m.addresses + addresses == m.addresses;
    } else {
      var m1 := m.(addresses := m.addresses + [addresses[0]]);
      DelimDecodes(AccessSchema(), m, 2, addresses[0]);
      AddressesDecode(m1, addresses[1..]);
      assert m1.addresses + addresses[1..] == m.addresses + addresses;
      DecodeThen(AccessSchema(), m, Delim(2, addresses[0]), m1,
                 AddressesBytes(addresses[1..]), m.(addresses := m.addresses + addresses));
    }
  }

  /** Every access configuration, negative permissions included, is read back. */
  lemma AccessRoundTrip(m: Access)
    requires |AccessBytes(m)| < TWO_63
    ensures Decode(AccessSchema(), NO_ACCESS, AccessBytes(m)) == Ok(m)
  {
    var m1 := Access(m.permission, []);
    if m.permission != 0 {
      VarintDecodes(AccessSchema(), NO_ACCESS, 1, ToUint64(m.permission));
      Int32RoundTrip(m.permission);
    }
    AddressesDecode(m1, m.addresses);
    assert [] + m.addresses == m.addresses;
    DecodeThen(AccessSchema(), NO_ACCESS, PermissionBytes(m.permission), m1, AddressesBytes(m.addresses), m);
  }

  /** An optional byte field sets its value; left out, it leaves the empty one. */
  lemma StoreCodeFieldDecodes(m: StoreCode, number: nat, bs: Bytes, m1: StoreCode)
    requires 1 <= number <= 3 && |DelimIfAny(number, bs)| < TWO_63
    requires SetStoreCode(m, number, bs) == Ok(m1)
    requires bs == [] ==> m1 == m
    ensures Decode(StoreCodeSchema(), m, DelimIfAny(number, bs)) == Ok(m1)
  {
    if bs != [] {
      DelimDecodes(StoreCodeSchema(), m, number, bs);
    }
  }

  lemma PermissionDecodes(m: StoreCode, a: Access)
    requires m.permission.None? && |Delim(4, AccessBytes(a))| < TWO_63
    ensures Decode(StoreCodeSchema(), m, Delim(4, AccessBytes(a))) == Ok(m.(permission := Some(a)))
  {
    DelimDecodes(StoreCodeSchema(), m, 4, AccessBytes(a));
    AccessRoundTrip(a);
  }

  /** Every message to store code, with its nested configuration absent, empty or
      full, is read back from its encoding. */
  lemma StoreCodeRoundTrip(m: StoreCode)
    requires |StoreCodeBytes(m)| < TWO_63
    ensures Decode(StoreCodeSchema(), NO_STORE_CODE, StoreCodeBytes(m)) == Ok(m)
  {
    var s := StoreCodeSchema();
    var m1 := StoreCode(m.authority, [], [], None);
    var m2 := StoreCode(m.authority, m.creator, [], None);
    var m3 := StoreCode(m.authority, m.creator, m.code, None);
    var d4 := NestedAccessBytes(m.permission);
    var d3 := DelimIfAny(3, m.code) + d4;
    var d2 := DelimIfAny(2, m.creator) + d3;
    if m.permission.Some? {
      PermissionDecodes(m3, m.permission.value);
    }
    StoreCodeFieldDecodes(m2, 3, m.code, m3);
    DecodeThen(s, m2, DelimIfAny(3, m.code), m3, d4, m);
    StoreCodeFieldDecodes(m1, 2, m.creator, m2);
    DecodeThen(s, m1, DelimIfAny(2, m.creator), m2, d3, m);
    StoreCodeFieldDecodes(NO_STORE_CODE, 1, m.authority, m1);
    DecodeThen(s, NO_STORE_CODE, DelimIfAny(1, m.authority), m1, d2, m);
  }

  lemma AuthorityRoundTrip(m: Authority)
    requires |AuthorityBytes(m)| < TWO_63
    ensures Decode(AuthoritySchema(), NO_AUTHORITY, AuthorityBytes(m)) == Ok(m)
  {
    if m.admin != [] {
      DelimDecodes(AuthoritySchema(), NO_AUTHORITY, 1, m.admin);
    }
  }

  /** Every genesis denom, with its nested metadata, is read back. */
  lemma DenomRoundTrip(m: Denom)
    requires |DenomBytes(m)| < TWO_63
    ensures Decode(DenomSchema(), NO_DENOM, DenomBytes(m)) == Ok(m)
  {
    var s := DenomSchema();
    var m1 := Denom(m.denom, NO_AUTHORITY);
    if m.denom != [] {
      DelimDecodes(s, NO_DENOM, 1, m.denom);
    }
    AuthorityRoundTrip(m.authority);
    DelimDecodes(s, m1, 2, AuthorityBytes(m.authority));
    DecodeThen(s, NO_DENOM, DelimIfAny(1, m.denom), m1, Delim(2, AuthorityBytes(m.authority)), m);
  }

  /** Nested messages merge across repeated fields: the second occurrence adds to
      the first instead of replacing it. */
  lemma PermissionsMerge(m: StoreCode, a: Access, b: Bytes)
    requires m.permission == Some(a)
    requires |Delim(4, b)| < TWO_63
    ensures match Decode(AccessSchema(), a, b)
            case Ok(a') => Decode(StoreCodeSchema(), m, Delim(4, b)) == Ok(m.(permission := Some(a')))
            case Err(e) => Decode(StoreCodeSchema(), m, Delim(4, b)) == Err(e)
  {
    DelimDecodes(StoreCodeSchema(), m, 4, b);
  }

  // ---------------------------------------------------------------------------
  // Errors that differ
  // ---------------------------------------------------------------------------

  const FAR: Uint64 := TWO_63 - 11

  /** An address whose length points far beyond the input. */
  function BrokenPart(): Bytes {
    [0x12] + Varint(FAR)
  }

  lemma BrokenPartFails(m: Access)
    ensures 2 <= |BrokenPart()| <= 10
    ensures Decode(AccessSchema(), m, BrokenPart()) == Err(UnexpectedEOF)
    ensures FailingEnd(AccessSchema(), m, BrokenPart(), 0) == |BrokenPart()| + FAR
  {
    var d := BrokenPart();
    VarintLength(FAR, 9);
    ShortTag(0x12, Varint(FAR));
    VarintAfterTag(0x12, FAR);
    assert TagAt(d, 0) == Ok(Tag(2, 2, 1));
    assert Extent(d, 1) == Err(UnexpectedEOF);
    assert Step(AccessSchema(), m, d, 0) == Err(UnexpectedEOF);
  }

  /** Two parts of which the second alone ends unexpectedly, while after the first
      its length is invalid. */
  lemma ErrorsDiffer() returns (a: Bytes, m: Access, b: Bytes)
    ensures |a + b| < TWO_63 && Decode(AccessSchema(), NO_ACCESS, a) == Ok(m)
    ensures Decode(AccessSchema(), m, b) == Err(UnexpectedEOF)
    ensures Decode(AccessSchema(), NO_ACCESS, a + b) == Err(InvalidLength)
  {
    a, m := SoundPartDecodes();
    b := BrokenPart();
    BrokenPartFails(m);
    FailsAfter(AccessSchema(), NO_ACCESS, a, m, b, a + b);
  }

  lemma SoundPartDecodes() returns (a: Bytes, m: Access)
    ensures |a| == 12 && Decode(AccessSchema(), NO_ACCESS, a) == Ok(m)
  {
    var bs := [0, 0, 0, 0, 0, 0, 0, 0, 0, 0];
    a := Delim(2, bs);
    assert Varint(10) == [10];
    DelimShape(2, bs);
    DelimDecodes(AccessSchema(), NO_ACCESS, 2, bs);
    m := Decode(AccessSchema(), NO_ACCESS, a).value;
  }
}
