/** The wire format byte by byte: what each field of each message looks like, in
    which order the fields are written and which are left out, and what each field
    does to a message that is being decoded, whatever it held before.
  */
module Layout {
  import opened Options
  import opened Wire
  import opened Skip
  import opened Decoder
  import opened Messages

  // ---------------------------------------------------------------------------
  // Varints
  // ---------------------------------------------------------------------------

  /** The value of groups of seven bits, low group first. */
  function Digits(bs: Bytes): nat {
    if bs == [] then 0 else bs[0] % 128 + 128 * Digits(bs[1..])
  }

  /** From index `i` on, `n` bytes of which exactly the last has its high bit clear. */
  predicate Spans(d: Bytes, i: nat, n: nat) {
    && 1 <= n && i + n <= |d|
    && (forall j :: i <= j < i + n - 1 ==> d[j] >= 128)
    && d[i + n - 1] < 128
  }

  /** The varint of a value: its groups, no more of them than needed. */
  lemma {:induction false} VarintIsMinimal(v: nat)
    ensures var bs := Varint(v);
            Digits(bs) == v && Spans(bs, 0, |bs|) && (|bs| > 1 ==> bs[|bs| - 1] != 0)
  {
    if v >= 128 {
      VarintIsMinimal(v / 128);
      var rest := Varint(v / 128);
      assert Varint(v) == [v % 128 + 128] + rest;
      assert Varint(v)[1..] == rest;
      assert Digits(rest) == v / 128 && (|rest| == 1 ==> rest[0] % 128 + 128 * Digits(rest[1..]) == v / 128);
    }
  }

  lemma {:induction false} ReadsGroups(d: Bytes, i: nat, k: nat, n: nat)
    requires Spans(d, i, n) && k + n <= 10
    ensures ReadFrom(d, i, k) == Got(Digits(d[i..i + n]), i + n)
    decreases n
  {
    var bs := d[i..i + n];
    if n == 1 {
      assert bs == [d[i]] && bs[1..] == [];
    } else {
      ReadsGroups(d, i + 1, k + 1, n - 1);
      assert bs[1..] == d[i + 1..i + n];
    }
  }

  lemma {:induction false} ReadSpans(d: Bytes, i: nat, k: nat)
    requires ReadFrom(d, i, k).Got?
    ensures var n := ReadFrom(d, i, k).next - i; k + n <= 10 && Spans(d, i, n)
    decreases 10 - k
  {
    if d[i] >= 128 {
      ReadSpans(d, i + 1, k + 1);
    }
  }

  lemma {:induction false} ReadOverflows(d: Bytes, i: nat, k: nat)
    requires k <= 10
    ensures ReadFrom(d, i, k) == Bad(IntOverflow) <==>
              i + (10 - k) <= |d| + (if k == 10 then i else 0) && forall j :: i <= j < i + (10 - k) ==> d[j] >= 128
    decreases 10 - k
  {
    if k < 10 && i < |d| && d[i] >= 128 {
      ReadOverflows(d, i + 1, k + 1);
    }
  }

  /** A varint is read exactly where up to ten bytes form one, and stands for 64 bits
      of their value; ten bytes that go on are an overflow, and all else ends too
      soon. */
  lemma ReadsExactly(d: Bytes, i: nat, n: nat)
    requires 1 <= n <= 10
    ensures Spans(d, i, n) ==> ReadVarint(d, i) == Ok((Digits(d[i..i + n]) % TWO_64, i + n))
    ensures ReadVarint(d, i).Ok? && ReadVarint(d, i).value.1 == i + n ==> Spans(d, i, n)
    ensures ReadVarint(d, i) == Err(IntOverflow) <==>
              i + 10 <= |d| && forall j :: i <= j < i + 10 ==> d[j] >= 128
  {
    if Spans(d, i, n) {
      ReadsGroups(d, i, 0, n);
    }
    if ReadFrom(d, i, 0).Got? {
      ReadSpans(d, i, 0);
    }
    ReadOverflows(d, i, 0);
  }

  /** Negative enum values are sign-extended, and so take ten bytes. */
  lemma EnumsAreSignExtended(p: Int32)
    ensures ToUint64(p) == if p < 0 then p + 0x1_0000_0000_0000_0000 else p
    ensures p < 0 ==> |Varint(ToUint64(p))| == 10
  {
    if p < 0 {
      LongVarint(ToUint64(p), 9);
      VarintAtMostTen(ToUint64(p));
    }
  }

  lemma {:induction false} LongVarint(v: nat, k: nat)
    requires v >= Pow128(k)
    ensures |Varint(v)| > k
    decreases k
  {
    if k > 0 {
      assert Pow128(k) == 128 * Pow128(k - 1);
      assert Pow128(k - 1) >= 1 by {
        PowPositive(k - 1);
      }
      LongVarint(v / 128, k - 1);
    }
  }

  lemma {:induction false} PowPositive(k: nat)
    ensures Pow128(k) >= 1
  {
    if k > 0 {
      PowPositive(k - 1);
    }
  }

  // ---------------------------------------------------------------------------
  // What is written
  // ---------------------------------------------------------------------------

  /** One field on the wire: a length-prefixed byte string, or a number. */
  datatype Part = Text(number: nat, bytes: Bytes) | Number(number: nat, value: Uint64)

  function PartBytes(p: Part): Bytes
    requires 1 <= p.number <= 15
  {
    match p
    case Text(number, bs) => [number * 8 + 2] + (Varint(|bs|) + bs)
    case Number(number, v) => [number * 8] + Varint(v)
  }

  predicate Numbered(ps: seq<Part>) {
    forall k :: 0 <= k < |ps| ==> 1 <= ps[k].number <= 15
  }

  function PartsBytes(ps: seq<Part>): Bytes
    requires Numbered(ps)
  {
    if ps == [] then [] else PartBytes(ps[0]) + PartsBytes(ps[1..])
  }

  predicate Ascending(ps: seq<Part>) {
    forall i, j :: 0 <= i < j < |ps| ==> ps[i].number < ps[j].number
  }

  function PartIfAny(number: nat, bs: Bytes): seq<Part> {
    if bs == [] then [] else [Text(number, bs)]
  }

  lemma DelimIsText(number: nat, bs: Bytes)
    requires 1 <= number <= 15
    ensures Delim(number, bs) == PartBytes(Text(number, bs))
    ensures DelimIfAny(number, bs) == PartsBytes(PartIfAny(number, bs))
  {
    DelimShape(number, bs);
    assert [Text(number, bs)][1..] == [];
    assert PartBytes(Text(number, bs)) + [] == PartBytes(Text(number, bs));
  }

  lemma TailOfAppend<T>(a: seq<T>, b: seq<T>)
    requires a != []
    ensures (a + b)[0] == a[0] && (a + b)[1..] == a[1..] + b
  {
  }

  lemma NumberedAppend(a: seq<Part>, b: seq<Part>)
    requires Numbered(a) && Numbered(b)
    ensures Numbered(a + b)
  {
  }

  lemma {:induction false} PartsAppend(a: seq<Part>, b: seq<Part>, ab: seq<Part>)
    requires Numbered(a) && Numbered(b) && ab == a + b
    ensures Numbered(ab) && PartsBytes(ab) == PartsBytes(a) + PartsBytes(b)
    decreases |a|
  {
    NumberedAppend(a, b);
    if a == [] {
      assert ab == b;
    } else {
      TailOfAppend(a, b);
      PartsAppend(a[1..], b, ab[1..]);
      Assoc(PartBytes(a[0]), PartsBytes(a[1..]), PartsBytes(b));
    }
  }

  function PermissionPart(p: Option<Access>): seq<Part> {
    if p.None? then [] else [Text(4, AccessBytes(p.value))]
  }

  function StoreCodeParts(m: StoreCode): seq<Part> {
    PartIfAny(1, m.authority) + (PartIfAny(2, m.creator) + (PartIfAny(3, m.code) + PermissionPart(m.permission)))
  }

  lemma StoreCodePartsBytes(m: StoreCode)
    ensures Numbered(StoreCodeParts(m)) && StoreCodeBytes(m) == PartsBytes(StoreCodeParts(m))
  {
    var a, b, c := PartIfAny(1, m.authority), PartIfAny(2, m.creator), PartIfAny(3, m.code);
    var d := PermissionPart(m.permission);
    DelimIsText(1, m.authority);
    DelimIsText(2, m.creator);
    DelimIsText(3, m.code);
    PermissionPartBytes(m.permission);
    PartsAppend(c, d, c + d);
    PartsAppend(b, c + d, b + (c + d));
    PartsAppend(a, b + (c + d), StoreCodeParts(m));
  }

  lemma PermissionPartBytes(p: Option<Access>)
    ensures PartsBytes(PermissionPart(p)) == NestedAccessBytes(p)
  {
    if p.Some? {
      DelimIsText(4, AccessBytes(p.value));
      OnePart(Text(4, AccessBytes(p.value)));
    }
  }

  /** MsgStoreCodeAdmin on the wire: authority, creator, code and permission, as
      fields 1 to 4 in this order; the first three are there exactly if not empty,
      the permission exactly if set. */
  lemma StoreCodeLayout(m: StoreCode) returns (ps: seq<Part>)
    ensures Numbered(ps) && StoreCodeBytes(m) == PartsBytes(ps) && Ascending(ps)
    ensures forall p :: p in ps <==>
              || (p == Text(1, m.authority) && m.authority != [])
              || (p == Text(2, m.creator) && m.creator != [])
              || (p == Text(3, m.code) && m.code != [])
              || (m.permission.Some? && p == Text(4, AccessBytes(m.permission.value)))
  {
    ps := StoreCodeParts(m);
    StoreCodePartsBytes(m);
    FourParts(PartIfAny(1, m.authority), PartIfAny(2, m.creator), PartIfAny(3, m.code), PermissionPart(m.permission));
    forall p
      ensures p in ps <==>
                || (p == Text(1, m.authority) && m.authority != [])
                || (p == Text(2, m.creator) && m.creator != [])
                || (p == Text(3, m.code) && m.code != [])
                || (m.permission.Some? && p == Text(4, AccessBytes(m.permission.value)))
    {
      InPartIfAny(1, m.authority, p);
      InPartIfAny(2, m.creator, p);
      InPartIfAny(3, m.code, p);
      InPermissionPart(m.permission, p);
    }
  }

  lemma InPartIfAny(number: nat, bs: Bytes, p: Part)
    ensures p in PartIfAny(number, bs) <==> p == Text(number, bs) && bs != []
  {
  }

  lemma InPermissionPart(permission: Option<Access>, p: Part)
    ensures p in PermissionPart(permission) <==> permission.Some? && p == Text(4, AccessBytes(permission.value))
  {
  }

  lemma FourParts(a: seq<Part>, b: seq<Part>, c: seq<Part>, d: seq<Part>)
    requires |a| <= 1 && |b| <= 1 && |c| <= 1 && |d| <= 1
    requires (forall p :: p in a ==> p.number == 1) && (forall p :: p in b ==> p.number == 2)
    requires (forall p :: p in c ==> p.number == 3) && (forall p :: p in d ==> p.number == 4)
    ensures Ascending(a + (b + (c + d)))
    ensures forall p :: p in a + (b + (c + d)) <==> p in a || p in b || p in c || p in d
  {
    AscendingAppend(c, d, 4);
    AscendingAppend(b, c + d, 3);
    AscendingAppend(a, b + (c + d), 2);
  }

  lemma AscendingAppend(a: seq<Part>, b: seq<Part>, n: nat)
    requires Ascending(a) && Ascending(b)
    requires (forall p :: p in a ==> p.number < n) && (forall p :: p in b ==> n <= p.number)
    ensures Ascending(a + b) && forall p :: p in a + b <==> p in a || p in b
  {
    forall i, j | 0 <= i < j < |a + b| ensures (a + b)[i].number < (a + b)[j].number {
      if i < |a| <= j {
        assert (a + b)[i] in a && (a + b)[j] in b;
      }
    }
  }

  lemma OnePart(p: Part)
    requires 1 <= p.number <= 15
    ensures PartsBytes([p]) == PartBytes(p)
  {
    assert [p][1..] == [];
    assert PartBytes(p) + [] == PartBytes(p);
  }

  function AddressParts(addresses: seq<Bytes>): seq<Part> {
    seq(|addresses|, i requires 0 <= i < |addresses| => Text(2, addresses[i]))
  }

  /** AccessConfig on the wire: the permission as a number in field 1, unless it is
      zero, then every address in field 2, empty ones too, in their order. */
  lemma AccessLayout(m: Access)
    ensures var first := if m.permission == 0 then [] else [Number(1, ToUint64(m.permission))];
            var ps := first + AddressParts(m.addresses);
            Numbered(ps) && AccessBytes(m) == PartsBytes(ps)
  {
    var first := if m.permission == 0 then [] else [Number(1, ToUint64(m.permission))];
    if m.permission != 0 {
      OnePart(Number(1, ToUint64(m.permission)));
    }
    AddressesLayout(m.addresses);
    PartsAppend(first, AddressParts(m.addresses), first + AddressParts(m.addresses));
  }

  lemma {:induction false} AddressesLayout(addresses: seq<Bytes>)
    ensures PartsBytes(AddressParts(addresses)) == AddressesBytes(addresses)
    decreases |addresses|
  {
    if addresses != [] {
      AddressesLayout(addresses[1..]);
      DelimIsText(2, addresses[0]);
      AddressPartsTail(addresses);
    }
  }

  lemma AddressPartsTail(addresses: seq<Bytes>)
    requires addresses != []
    ensures AddressParts(addresses) != [] && AddressParts(addresses)[0] == Text(2, addresses[0])
    ensures AddressParts(addresses)[1..] == AddressParts(addresses[1..])
  {
  }

  /** DenomAuthorityMetadata on the wire: the admin in field 1, unless empty. */
  lemma AuthorityLayout(m: Authority)
    ensures AuthorityBytes(m) == if m.admin == [] then [] else [0x0a] + (Varint(|m.admin|) + m.admin)
  {
    DelimIsText(1, m.admin);
  }

  /** GenesisDenom on the wire: the denom in field 1, unless empty, then the metadata
      in field 2, always. */
  lemma DenomLayout(m: Denom)
    ensures DenomBytes(m) ==
              (if m.denom == [] then [] else [0x0a] + (Varint(|m.denom|) + m.denom)) +
              ([0x12] + (Varint(|AuthorityBytes(m.authority)|) + AuthorityBytes(m.authority)))
  {
    DelimIsText(1, m.denom);
    DelimIsText(2, AuthorityBytes(m.authority));
  }

  // ---------------------------------------------------------------------------
  // What is read
  // ---------------------------------------------------------------------------

  /** A length-prefixed field with tag byte `tag`. */
  function Prefixed(tag: Byte, x: Bytes): Bytes {
    [tag] + (Varint(|x|) + x)
  }

  lemma PrefixedIsDelim(number: nat, x: Bytes)
    requires 1 <= number <= 15
    ensures Prefixed(number * 8 + 2, x) == Delim(number, x)
  {
    DelimShape(number, x);
  }

  /** In MsgStoreCodeAdmin, an authority replaces the one before, ... */
  lemma AuthorityField(m: StoreCode, x: Bytes)
    requires |Prefixed(0x0a, x)| < TWO_63
    ensures Decode(StoreCodeSchema(), m, Prefixed(0x0a, x)) == Ok(StoreCode(x, m.creator, m.code, m.permission))
  {
    StoreCodeField(m, 1, x);
  }

  /** ... so does a creator, ... */
  lemma CreatorField(m: StoreCode, x: Bytes)
    requires |Prefixed(0x12, x)| < TWO_63
    ensures Decode(StoreCodeSchema(), m, Prefixed(0x12, x)) == Ok(StoreCode(m.authority, x, m.code, m.permission))
  {
    StoreCodeField(m, 2, x);
  }

  /** ... and so does a code. */
  lemma CodeField(m: StoreCode, x: Bytes)
    requires |Prefixed(0x1a, x)| < TWO_63
    ensures Decode(StoreCodeSchema(), m, Prefixed(0x1a, x)) == Ok(StoreCode(m.authority, m.creator, x, m.permission))
  {
    StoreCodeField(m, 3, x);
  }

  lemma StoreCodeField(m: StoreCode, number: nat, x: Bytes)
    requires 1 <= number <= 4 && |Prefixed(number * 8 + 2, x)| < TWO_63
    ensures Decode(StoreCodeSchema(), m, Prefixed(number * 8 + 2, x)) == SetStoreCode(m, number, x)
  {
    PrefixedIsDelim(number, x);
    DelimDecodes(StoreCodeSchema(), m, number, x);
  }

  /** The permission is decoded into what was there, or into an empty one. */
  lemma PermissionField(m: StoreCode, x: Bytes)
    requires |Prefixed(0x22, x)| < TWO_63
    ensures match Decode(AccessSchema(), if m.permission.Some? then m.permission.value else Access(0, []), x)
            case Ok(a) =>
              Decode(StoreCodeSchema(), m, Prefixed(0x22, x)) == Ok(StoreCode(m.authority, m.creator, m.code, Some(a)))
            case Err(e) => Decode(StoreCodeSchema(), m, Prefixed(0x22, x)) == Err(e)
  {
    StoreCodeField(m, 4, x);
  }

  /** A permission replaces the one before, cut to 32 bits; an address is added at the
      end. */
  lemma AccessFields(m: Access, v: Uint64, x: Bytes)
    requires |Prefixed(0x12, x)| < TWO_63
    ensures |[0x08] + Varint(v)| <= 11
    ensures Decode(AccessSchema(), m, [0x08] + Varint(v)) == Ok(Access(ToInt32(v), m.addresses))
    ensures Decode(AccessSchema(), m, Prefixed(0x12, x)) == Ok(Access(m.permission, m.addresses + [x]))
  {
    VarintDecodes(AccessSchema(), m, 1, v);
    PrefixedIsDelim(2, x);
    DelimDecodes(AccessSchema(), m, 2, x);
  }

  lemma AuthorityFields(m: Authority, x: Bytes)
    requires |Prefixed(0x0a, x)| < TWO_63
    ensures Decode(AuthoritySchema(), m, Prefixed(0x0a, x)) == Ok(Authority(x))
  {
    PrefixedIsDelim(1, x);
    DelimDecodes(AuthoritySchema(), m, 1, x);
  }

  /** The denom replaces the one before; the metadata is decoded into what was there. */
  lemma DenomFields(m: Denom, x: Bytes)
    requires |Prefixed(0x0a, x)| < TWO_63
    ensures Decode(DenomSchema(), m, Prefixed(0x0a, x)) == Ok(Denom(x, m.authority))
    ensures match Decode(AuthoritySchema(), m.authority, x)
            case Ok(a) => Decode(DenomSchema(), m, Prefixed(0x12, x)) == Ok(Denom(m.denom, a))
            case Err(e) => Decode(DenomSchema(), m, Prefixed(0x12, x)) == Err(e)
  {
    PrefixedIsDelim(1, x);
    PrefixedIsDelim(2, x);
    DelimDecodes(DenomSchema(), m, 1, x);
    DelimDecodes(DenomSchema(), m, 2, x);
  }

  /** Fields with other numbers are stepped over, whatever they hold. */
  lemma OtherFields(f: Field, a: StoreCode, b: Access, c: Authority, d: Denom)
    requires WellFormed(f) && |Encode(f)| < TWO_63
    ensures NumberOf(f) > 4 ==> Decode(StoreCodeSchema(), a, Encode(f)) == Ok(a)
    ensures NumberOf(f) > 2 ==> Decode(AccessSchema(), b, Encode(f)) == Ok(b)
    ensures NumberOf(f) > 1 ==> Decode(AuthoritySchema(), c, Encode(f)) == Ok(c)
    ensures NumberOf(f) > 2 ==> Decode(DenomSchema(), d, Encode(f)) == Ok(d)
  {
    if NumberOf(f) > 4 {
      ForeignFieldIsIgnored(StoreCodeSchema(), a, f);
    }
    if NumberOf(f) > 2 {
      ForeignFieldIsIgnored(AccessSchema(), b, f);
      ForeignFieldIsIgnored(DenomSchema(), d, f);
    }
    if NumberOf(f) > 1 {
      ForeignFieldIsIgnored(AuthoritySchema(), c, f);
    }
  }

  // ---------------------------------------------------------------------------
  // What is refused
  // ---------------------------------------------------------------------------

  lemma TagByte(t: Byte, rest: Bytes)
    requires t < 128
    ensures ReadVarint([t] + rest, 0) == Ok((t, 1))
  {
    assert ([t] + rest)[0] == t;
  }

  /** A field that starts with an end-group tag, or has number 0, is refused, and so
      is a known field with another wire type than its own. */
  lemma TagsRefused<M>(s: Schema<M>, m: M, t: Byte, rest: Bytes)
    requires t < 128 && 1 + |rest| < TWO_63
    ensures t % 8 == 4 ==> Decode(s, m, [t] + rest) == Err(EndGroupForNonGroup)
    ensures t % 8 != 4 && t < 8 ==> Decode(s, m, [t] + rest) == Err(IllegalTag)
    ensures t % 8 != 4 && t >= 8 && t % 8 != 0 && s.kind(t / 8) == VarintField ==>
              Decode(s, m, [t] + rest) == Err(WrongWireType)
    ensures t % 8 != 4 && t >= 8 && t % 8 != 2 && s.kind(t / 8) == DelimitedField ==>
              Decode(s, m, [t] + rest) == Err(WrongWireType)
  {
    TagByte(t, rest);
  }

  /** The wire types of the four messages' fields. */
  lemma KnownFieldsRefuse(a: StoreCode, b: Access, c: Authority, d: Denom, number: nat, wireType: nat, rest: Bytes)
    requires 1 <= number <= 4 && wireType < 8 && wireType != 4 && 1 + |rest| < TWO_63
    ensures wireType != 2 ==> Decode(StoreCodeSchema(), a, [number * 8 + wireType] + rest) == Err(WrongWireType)
    ensures number == 1 && wireType != 0 ==>
              Decode(AccessSchema(), b, [number * 8 + wireType] + rest) == Err(WrongWireType)
    ensures number == 2 && wireType != 2 ==>
              Decode(AccessSchema(), b, [number * 8 + wireType] + rest) == Err(WrongWireType)
    ensures number == 1 && wireType != 2 ==>
              Decode(AuthoritySchema(), c, [number * 8 + wireType] + rest) == Err(WrongWireType)
    ensures number <= 2 && wireType != 2 ==>
              Decode(DenomSchema(), d, [number * 8 + wireType] + rest) == Err(WrongWireType)
  {
    var t := number * 8 + wireType;
    TagsRefused(StoreCodeSchema(), a, t, rest);
    TagsRefused(AccessSchema(), b, t, rest);
    TagsRefused(AuthoritySchema(), c, t, rest);
    TagsRefused(DenomSchema(), d, t, rest);
  }

  /** A length with its sign bit set, or one that points beyond the input, is refused. */
  lemma LengthsRefused<M>(s: Schema<M>, m: M, number: nat, v: Uint64, x: Bytes)
    requires 1 <= number <= 15 && s.kind(number) == DelimitedField
    requires |[number * 8 + 2] + (Varint(v) + x)| < TWO_63
    ensures v >= TWO_63 ==> Decode(s, m, [number * 8 + 2] + (Varint(v) + x)) == Err(InvalidLength)
    ensures v > |x| && v < TWO_63 - 11 ==> Decode(s, m, [number * 8 + 2] + (Varint(v) + x)) == Err(UnexpectedEOF)
  {
    LengthRead(number, v, x);
    ShortTag(number * 8 + 2, Varint(v) + x);
  }

  lemma LengthRead(number: nat, v: Uint64, x: Bytes)
    requires 1 <= number <= 15
    ensures var d := [number * 8 + 2] + (Varint(v) + x);
            |d| <= 11 + |x| && ReadVarint(d, 1) == Ok((v, |d| - |x|))
  {
    VarintAtMostTen(v);
    VarintRoundTrip(v);
    ReadVarintAt([number * 8 + 2], Varint(v), x);
    Assoc([number * 8 + 2], Varint(v), x);
  }
}
