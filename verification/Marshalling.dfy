/** The generated methods themselves: sizing, marshalling into the tail of a
    buffer, and the decoding loops that fill an object's fields. Each is proved
    against the encodings and schemas of module Messages.
  */
module Marshalling {
  import opened Options
  import opened Wire
  import opened Decoder
  import opened Messages

  // ---------------------------------------------------------------------------
  // Writing back to front
  // ---------------------------------------------------------------------------

  method WriteBytes(buf: array<Byte>, at: nat, bs: Bytes)
    requires at + |bs| <= buf.Length
    modifies buf
    ensures Written(buf[..], old(buf[..]), at, bs)
  {
    forall k | 0 <= k < |bs| {
      buf[at + k] := bs[k];
    }
    WrittenPointwise(buf[..], old(buf[..]), at, bs);
  }

  method WriteVarint(buf: array<Byte>, end: nat, v: Uint64) returns (at: nat)
    requires |Varint(v)| <= end <= buf.Length
    modifies buf
    ensures at == end - |Varint(v)| && Written(buf[..], old(buf[..]), at, Varint(v))
  {
    SovIsVarintLength(v);
    at := EncodeVarint(buf, end, v);
  }

  method WriteByte(buf: array<Byte>, at: nat, b: Byte)
    requires at < buf.Length
    modifies buf
    ensures Written(buf[..], old(buf[..]), at, [b])
  {
    buf[at] := b;
  }

  // The tag and length that precede a payload already in place.
  method WriteHeader(buf: array<Byte>, end: nat, number: nat, length: nat,
                     ghost was: Bytes, ghost payload: Bytes, ghost tail: Bytes) returns (at: nat)
    requires 1 <= number <= 15 && length == |payload| < TWO_63
    requires 1 + |Varint(length)| <= end <= buf.Length
    requires Written(buf[..], was, end, payload + tail)
    modifies buf
    ensures at == end - |Varint(length)| - 1
    ensures Written(buf[..], was, at, Delim(number, payload) + tail)
  {
    var i := WriteVarint(buf, end, length);
    WrittenBefore(buf[..], old(buf[..]), was, i, Varint(length), payload + tail);
    at := i - 1;
    ghost var mid := buf[..];
    WriteByte(buf, at, number * 8 + 2);
    WrittenBefore(buf[..], mid, was, at, [number * 8 + 2], Varint(length) + (payload + tail));
    DelimAndTail(number, payload, tail);
  }

  lemma DelimAndTail(number: nat, payload: Bytes, tail: Bytes)
    requires 1 <= number <= 15
    ensures [number * 8 + 2] + (Varint(|payload|) + (payload + tail)) == Delim(number, payload) + tail
  {
    var t, len := [number * 8 + 2], Varint(|payload|);
    Assoc(t, len, payload + tail);
    Assoc(t + len, payload, tail);
  }

  // A length-prefixed field, unless empty, in front of what is written already.
  method WriteDelimIfAny(buf: array<Byte>, end: nat, number: nat, bs: Bytes, ghost was: Bytes, ghost tail: Bytes)
    returns (at: nat)
    requires 1 <= number <= 15
    requires |DelimIfAny(number, bs)| <= end <= buf.Length && |bs| < TWO_63
    requires Written(buf[..], was, end, tail)
    modifies buf
    ensures at == end - |DelimIfAny(number, bs)|
    ensures Written(buf[..], was, at, DelimIfAny(number, bs) + tail)
  {
    at := end;
    if |bs| > 0 {
      at := WriteDelim(buf, end, number, bs, was, tail);
    } else {
      assert [] + tail == tail;
    }
  }

  method WriteNumber(buf: array<Byte>, end: nat, number: nat, v: Uint64, ghost was: Bytes, ghost tail: Bytes)
    returns (at: nat)
    requires 1 <= number <= 15
    requires 1 + |Varint(v)| <= end <= buf.Length
    requires Written(buf[..], was, end, tail)
    modifies buf
    ensures at == end - 1 - |Varint(v)|
    ensures Written(buf[..], was, at, [number * 8] + Varint(v) + tail)
  {
    var i := WriteVarint(buf, end, v);
    WrittenBefore(buf[..], old(buf[..]), was, i, Varint(v), tail);
    ghost var mid := buf[..];
    at := i - 1;
    WriteByte(buf, at, number * 8);
    WrittenBefore(buf[..], mid, was, at, [number * 8], Varint(v) + tail);
    Assoc([number * 8], Varint(v), tail);
  }

  method WriteDelim(buf: array<Byte>, end: nat, number: nat, bs: Bytes, ghost was: Bytes, ghost tail: Bytes)
    returns (at: nat)
    requires 1 <= number <= 15
    requires |Delim(number, bs)| <= end <= buf.Length && |bs| < TWO_63
    requires Written(buf[..], was, end, tail)
    modifies buf
    ensures at == end - |Delim(number, bs)|
    ensures Written(buf[..], was, at, Delim(number, bs) + tail)
  {
    WriteBytes(buf, end - |bs|, bs);
    WrittenBefore(buf[..], old(buf[..]), was, end - |bs|, bs, tail);
    at := WriteHeader(buf, end - |bs|, number, |bs|, was, bs, tail);
  }

  lemma DelimSize(number: nat, bs: Bytes)
    requires 1 <= number <= 15
    ensures |Delim(number, bs)| == 1 + |bs| + Sov(|bs|)
  {
    SovIsVarintLength(|bs|);
  }

  lemma {:induction false} AddressesBytesAppend(a: seq<Bytes>, b: seq<Bytes>)
    ensures AddressesBytes(a + b) == AddressesBytes(a) + AddressesBytes(b)
  {
    if a == [] {
      assert a + b == b;
    } else {
      assert (a + b)[1..] == a[1..] + b;
      AddressesBytesAppend(a[1..], b);
    }
  }

  lemma AddressesBytesFrom(addresses: seq<Bytes>, k: nat)
    requires k < |addresses|
    ensures AddressesBytes(addresses[k..]) == Delim(2, addresses[k]) + AddressesBytes(addresses[k + 1..])
    ensures |AddressesBytes(addresses[k..])| <= |AddressesBytes(addresses)|
    ensures |addresses[k]| <= |Delim(2, addresses[k])|
  {
    assert addresses[k..][1..] == addresses[k + 1..];
    assert addresses == addresses[..k] + addresses[k..];
    AddressesBytesAppend(addresses[..k], addresses[k..]);
  }

  // ---------------------------------------------------------------------------
  // AccessConfig
  // ---------------------------------------------------------------------------

  class AccessConfig {
    var Permission: Int32
    var Addresses: seq<Bytes>

    function Value(): Access
      reads this
    {
      Access(Permission, Addresses)
    }

    constructor ()
      ensures Value() == NO_ACCESS
    {
      Permission, Addresses := 0, [];
    }

    method Size() returns (n: nat)
      ensures n == |AccessBytes(Value())|
    {
      n := 0;
      if Permission != 0 {
        SovIsVarintLength(ToUint64(Permission));
        n := n + 1 + Sov(ToUint64(Permission));
      }
      for k := 0 to |Addresses|
        invariant n == |PermissionBytes(Permission)| + |AddressesBytes(Addresses[..k])|
      {
        var l := |Addresses[k]|;
        DelimSize(2, Addresses[k]);
        assert Addresses[..k + 1] == Addresses[..k] + [Addresses[k]];
        AddressesBytesAppend(Addresses[..k], [Addresses[k]]);
        assert AddressesBytes([Addresses[k]]) == Delim(2, Addresses[k]);
        n := n + 1 + l + Sov(l);
      }
      assert Addresses[..|Addresses|] == Addresses;
    }

    // Fills the end of buf[..end] and returns the number of bytes written.
    method MarshalToSizedBuffer(buf: array<Byte>, end: nat) returns (n: nat)
      requires |AccessBytes(Value())| <= end <= buf.Length < TWO_63
      modifies buf
      ensures n == |AccessBytes(Value())|
      ensures Written(buf[..], old(buf[..]), end - n, AccessBytes(Value()))
    {
      ghost var was := buf[..];
      ghost var tail := AddressesBytes(Addresses);
      var i := MarshalAddresses(buf, end);
      if Permission != 0 {
        i := WriteNumber(buf, i, 1, ToUint64(Permission), was, tail);
      } else {
        assert [] + tail == tail;
      }
      n := end - i;
    }

    // The loop over the addresses, last one first.
    method MarshalAddresses(buf: array<Byte>, end: nat) returns (i: nat)
      requires |AddressesBytes(Addresses)| <= end <= buf.Length < TWO_63
      modifies buf
      ensures i == end - |AddressesBytes(Addresses)|
      ensures Written(buf[..], old(buf[..]), i, AddressesBytes(Addresses))
    {
      i := end;
      var k := |Addresses|;
      assert Addresses[k..] == [];
      while k > 0
        invariant 0 <= k <= |Addresses|
        invariant i == end - |AddressesBytes(Addresses[k..])|
        invariant Written(buf[..], old(buf[..]), i, AddressesBytes(Addresses[k..]))
      {
        k := k - 1;
        AddressesBytesFrom(Addresses, k);
        i := WriteDelim(buf, i, 2, Addresses[k], old(buf[..]), AddressesBytes(Addresses[k + 1..]));
      }
      assert Addresses[0..] == Addresses;
    }

    method Unmarshal(d: Bytes) returns (ok: bool, error: Error)
      requires |d| < TWO_63
      modifies this
      ensures match Decode(AccessSchema(), old(Value()), d)
              case Ok(m) => ok && Value() == m
              case Err(e) => !ok && error == e
    {
      var i := 0;
      ok, error := false, UnexpectedEOF;
      while i < |d|
        invariant 0 <= i <= |d|
        invariant Decode(AccessSchema(), old(Value()), d) == DecodeFrom(AccessSchema(), Value(), d, i)
        decreases |d| - i
      {
        var tag, good, e := DecodeTag(d, i);
        if !good {
          return false, e;
        }
        if tag.number == 1 {
          if tag.wireType != 0 {
            return false, WrongWireType;
          }
          var v, next, good', e' := DecodeVarint(d, tag.next);
          if !good' {
            return false, e';
          }
          Permission := ToInt32(v);
          i := next;
        } else if tag.number == 2 {
          if tag.wireType != 2 {
            return false, WrongWireType;
          }
          var start, end, good', e' := DecodeExtent(d, tag.next);
          if !good' {
            return false, e';
          }
          Addresses := Addresses + [d[start..end]];
          i := end;
        } else {
          var next, good', e' := DecodeUnknown(d, i);
          if !good' {
            return false, e';
          }
          i := next;
        }
      }
      ok := true;
    }
  }

  // ---------------------------------------------------------------------------
  // MsgStoreCodeAdmin
  // ---------------------------------------------------------------------------

  class MsgStoreCodeAdmin {
    var Authority: Bytes
    var Creator: Bytes
    var WASMByteCode: Bytes
    var InstantiatePermission: AccessConfig?

    function Value(): StoreCode
      reads this, InstantiatePermission
    {
      StoreCode(Authority, Creator, WASMByteCode,
                if InstantiatePermission == null then None else Some(InstantiatePermission.Value()))
    }

    constructor ()
      ensures Value() == NO_STORE_CODE
    {
      Authority, Creator, WASMByteCode, InstantiatePermission := [], [], [], null;
    }

    method Size() returns (n: nat)
      ensures n == |StoreCodeBytes(Value())|
    {
      n := 0;
      var l := |Authority|;
      if l > 0 {
        DelimSize(1, Authority);
        n := n + 1 + l + Sov(l);
      }
      l := |Creator|;
      if l > 0 {
        DelimSize(2, Creator);
        n := n + 1 + l + Sov(l);
      }
      l := |WASMByteCode|;
      if l > 0 {
        DelimSize(3, WASMByteCode);
        n := n + 1 + l + Sov(l);
      }
      if InstantiatePermission != null {
        l := InstantiatePermission.Size();
        DelimSize(4, AccessBytes(InstantiatePermission.Value()));
        n := n + 1 + l + Sov(l);
      }
    }

    method MarshalToSizedBuffer(buf: array<Byte>, end: nat) returns (n: nat)
      requires |StoreCodeBytes(Value())| <= end <= buf.Length < TWO_63
      modifies buf
      ensures n == |StoreCodeBytes(Value())|
      ensures Written(buf[..], old(buf[..]), end - n, StoreCodeBytes(Value()))
    {
      ghost var was := buf[..];
      ghost var nested := NestedAccessBytes(Value().permission);
      var i := MarshalPermission(buf, end);
      i := WriteDelimIfAny(buf, i, 3, WASMByteCode, was, nested);
      i := WriteDelimIfAny(buf, i, 2, Creator, was, DelimIfAny(3, WASMByteCode) + nested);
      i := WriteDelimIfAny(buf, i, 1, Authority, was, DelimIfAny(2, Creator) + (DelimIfAny(3, WASMByteCode) + nested));
      n := end - i;
    }

    // The nested message, first in its own right and then behind tag and length.
    method MarshalPermission(buf: array<Byte>, end: nat) returns (i: nat)
      requires |NestedAccessBytes(Value().permission)| <= end <= buf.Length < TWO_63
      modifies buf
      ensures i == end - |NestedAccessBytes(Value().permission)|
      ensures Written(buf[..], old(buf[..]), i, NestedAccessBytes(Value().permission))
    {
      ghost var was := buf[..];
      i := end;
      if InstantiatePermission != null {
        ghost var inner := AccessBytes(InstantiatePermission.Value());
        var size := InstantiatePermission.MarshalToSizedBuffer(buf, i);
        assert inner + [] == inner && Delim(4, inner) + [] == Delim(4, inner);
        i := WriteHeader(buf, i - size, 4, size, was, inner, []);
      }
    }

    method Marshal() returns (bytes: Bytes)
      requires |StoreCodeBytes(Value())| < TWO_63
      ensures bytes == StoreCodeBytes(Value())
    {
      var size := Size();
      var buf := new Byte[size];
      ghost var was := buf[..];
      var n := MarshalToSizedBuffer(buf, size);
      WrittenAll(buf[..], was, StoreCodeBytes(Value()));
      bytes := buf[..n];
    }

    // The cases of the switch: a nested message is filled in, not replaced.
    method SetField(number: Int32, bs: Bytes) returns (ok: bool, error: Error)
      requires 1 <= number <= 4 && |bs| < TWO_63
      modifies this, InstantiatePermission
      ensures match SetStoreCode(old(Value()), number, bs)
              case Ok(m) => ok && Value() == m
              case Err(e) => !ok && error == e
      ensures InstantiatePermission == old(InstantiatePermission) || fresh(InstantiatePermission)
    {
      ok, error := true, UnexpectedEOF;
      if number == 1 {
        Authority := bs;
      } else if number == 2 {
        Creator := bs;
      } else if number == 3 {
        WASMByteCode := bs;
      } else {
        if InstantiatePermission == null {
          InstantiatePermission := new AccessConfig();
        }
        ok, error := InstantiatePermission.Unmarshal(bs);
      }
    }

    method Unmarshal(d: Bytes) returns (ok: bool, error: Error)
      requires |d| < TWO_63
      modifies this, InstantiatePermission
      ensures match Decode(StoreCodeSchema(), old(Value()), d)
              case Ok(m) => ok && Value() == m
              case Err(e) => !ok && error == e
      ensures InstantiatePermission == old(InstantiatePermission) || fresh(InstantiatePermission)
    {
      var i := 0;
      ok, error := false, UnexpectedEOF;
      while i < |d|
        invariant 0 <= i <= |d|
        invariant InstantiatePermission == old(InstantiatePermission) || fresh(InstantiatePermission)
        invariant Decode(StoreCodeSchema(), old(Value()), d) == DecodeFrom(StoreCodeSchema(), Value(), d, i)
        decreases |d| - i
      {
        var tag, good, e := DecodeTag(d, i);
        if !good {
          return false, e;
        }
        if 1 <= tag.number <= 4 {
          if tag.wireType != 2 {
            return false, WrongWireType;
          }
          var start, end, good', e' := DecodeExtent(d, tag.next);
          if !good' {
            return false, e';
          }
          good, e := SetField(tag.number, d[start..end]);
          if !good {
            return false, e;
          }
          i := end;
        } else {
          var next, good', e' := DecodeUnknown(d, i);
          if !good' {
            return false, e';
          }
          i := next;
        }
      }
      ok := true;
    }
  }

  // ---------------------------------------------------------------------------
  // DenomAuthorityMetadata
  // ---------------------------------------------------------------------------

  class DenomAuthorityMetadata {
    var Admin: Bytes

    function Value(): Authority
      reads this
    {
      Authority(Admin)
    }

    constructor ()
      ensures Value() == NO_AUTHORITY
    {
      Admin := [];
    }

    method Size() returns (n: nat)
      ensures n == |AuthorityBytes(Value())|
    {
      n := 0;
      var l := |Admin|;
      if l > 0 {
        DelimSize(1, Admin);
        n := n + 1 + l + Sov(l);
      }
    }

    method MarshalToSizedBuffer(buf: array<Byte>, end: nat) returns (n: nat)
      requires |AuthorityBytes(Value())| <= end <= buf.Length < TWO_63
      modifies buf
      ensures n == |AuthorityBytes(Value())|
      ensures Written(buf[..], old(buf[..]), end - n, AuthorityBytes(Value()))
    {
      var i := WriteDelimIfAny(buf, end, 1, Admin, buf[..], []);
      assert DelimIfAny(1, Admin) + [] == AuthorityBytes(Value());
      n := end - i;
    }

    method Unmarshal(d: Bytes) returns (ok: bool, error: Error)
      requires |d| < TWO_63
      modifies this
      ensures match Decode(AuthoritySchema(), old(Value()), d)
              case Ok(m) => ok && Value() == m
              case Err(e) => !ok && error == e
    {
      var i := 0;
      ok, error := false, UnexpectedEOF;
      while i < |d|
        invariant 0 <= i <= |d|
        invariant Decode(AuthoritySchema(), old(Value()), d) == DecodeFrom(AuthoritySchema(), Value(), d, i)
        decreases |d| - i
      {
        var tag, good, e := DecodeTag(d, i);
        if !good {
          return false, e;
        }
        if tag.number == 1 {
          if tag.wireType != 2 {
            return false, WrongWireType;
          }
          var start, end, good', e' := DecodeExtent(d, tag.next);
          if !good' {
            return false, e';
          }
          Admin := d[start..end];
          i := end;
        } else {
          var next, good', e' := DecodeUnknown(d, i);
          if !good' {
            return false, e';
          }
          i := next;
        }
      }
      ok := true;
    }
  }

  // ---------------------------------------------------------------------------
  // GenesisDenom
  // ---------------------------------------------------------------------------

  // The metadata is embedded by value in Go; here it is an object of its own.
  class GenesisDenom {
    var DenomName: Bytes
    const AuthorityMetadata: DenomAuthorityMetadata

    function Value(): Denom
      reads this, AuthorityMetadata
    {
      Denom(DenomName, AuthorityMetadata.Value())
    }

    constructor ()
      ensures Value() == NO_DENOM && fresh(AuthorityMetadata)
    {
      DenomName := [];
      AuthorityMetadata := new DenomAuthorityMetadata();
    }

    method Size() returns (n: nat)
      ensures n == |DenomBytes(Value())|
    {
      n := 0;
      var l := |DenomName|;
      if l > 0 {
        DelimSize(1, DenomName);
        n := n + 1 + l + Sov(l);
      }
      l := AuthorityMetadata.Size();
      DelimSize(2, AuthorityBytes(AuthorityMetadata.Value()));
      n := n + 1 + l + Sov(l);
    }

    method MarshalToSizedBuffer(buf: array<Byte>, end: nat) returns (n: nat)
      requires |DenomBytes(Value())| <= end <= buf.Length < TWO_63
      modifies buf
      ensures n == |DenomBytes(Value())|
      ensures Written(buf[..], old(buf[..]), end - n, DenomBytes(Value()))
    {
      ghost var was := buf[..];
      ghost var inner := AuthorityBytes(AuthorityMetadata.Value());
      var size := AuthorityMetadata.MarshalToSizedBuffer(buf, end);
      assert inner + [] == inner && Delim(2, inner) + [] == Delim(2, inner);
      var i := WriteHeader(buf, end - size, 2, size, was, inner, []);
      i := WriteDelimIfAny(buf, i, 1, DenomName, was, Delim(2, inner));
      n := end - i;
    }

    method SetField(number: Int32, bs: Bytes) returns (ok: bool, error: Error)
      requires 1 <= number <= 2 && |bs| < TWO_63
      modifies this, AuthorityMetadata
      ensures match SetDenom(old(Value()), number, bs)
              case Ok(m) => ok && Value() == m
              case Err(e) => !ok && error == e
    {
      ok, error := true, UnexpectedEOF;
      if number == 1 {
        DenomName := bs;
      } else {
        ok, error := AuthorityMetadata.Unmarshal(bs);
      }
    }

    method Unmarshal(d: Bytes) returns (ok: bool, error: Error)
      requires |d| < TWO_63
      modifies this, AuthorityMetadata
      ensures match Decode(DenomSchema(), old(Value()), d)
              case Ok(m) => ok && Value() == m
              case Err(e) => !ok && error == e
    {
      var i := 0;
      ok, error := false, UnexpectedEOF;
      while i < |d|
        invariant 0 <= i <= |d|
        invariant Decode(DenomSchema(), old(Value()), d) == DecodeFrom(DenomSchema(), Value(), d, i)
        decreases |d| - i
      {
        var tag, good, e := DecodeTag(d, i);
        if !good {
          return false, e;
        }
        if tag.number == 1 || tag.number == 2 {
          if tag.wireType != 2 {
            return false, WrongWireType;
          }
          var start, end, good', e' := DecodeExtent(d, tag.next);
          if !good' {
            return false, e';
          }
          good, e := SetField(tag.number, d[start..end]);
          if !good {
            return false, e;
          }
          i := end;
        } else {
          var next, good', e' := DecodeUnknown(d, i);
          if !good' {
            return false, e';
          }
          i := next;
        }
      }
      ok := true;
    }
  }
}
