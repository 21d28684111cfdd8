/** The generated `skip` functions: how many bytes does the first field of a byte
    string take? A loop with a depth counter handles groups nested to any depth.
    The theorems say that it recognises exactly the protobuf field grammar (of
    which the only thing not checked is that the field number of an end-group tag
    repeats that of its start).
  */
module Skip {
  import opened Wire

  // ---------------------------------------------------------------------------
  // The grammar of fields
  // ---------------------------------------------------------------------------

  datatype Field = Field(tag: Bytes, body: Body)

  datatype Body =
    | VarintBody(value: Bytes)
    | Fixed64(bytes: Bytes)
    | Delimited(length: Bytes, payload: Bytes)
    | Group(fields: Fields, end: Bytes)
    | Fixed32(bytes: Bytes)

  datatype Fields = NoFields | Next(head: Field, tail: Fields)

  predicate IsTag(tag: Bytes, wireType: int) {
    IsVarint(tag) && VarintValue(tag) % 8 == wireType
  }

  predicate WellFormed(f: Field) {
    match f.body
    case VarintBody(v) => IsTag(f.tag, 0) && IsVarint(v)
    case Fixed64(bs) => IsTag(f.tag, 1) && |bs| == 8
    case Delimited(len, payload) => IsTag(f.tag, 2) && IsVarint(len) && VarintValue(len) == |payload|
    case Group(fields, end) => IsTag(f.tag, 3) && AllWellFormed(fields) && IsTag(end, 4)
    case Fixed32(bs) => IsTag(f.tag, 5) && |bs| == 4
  }

  predicate AllWellFormed(fs: Fields) {
    match fs
    case NoFields => true
    case Next(f, rest) => WellFormed(f) && AllWellFormed(rest)
  }

  function Encode(f: Field): Bytes {
    f.tag +
    match f.body
    case VarintBody(v) => v
    case Fixed64(bs) => bs
    case Delimited(len, payload) => len + payload
    case Group(fields, end) => EncodeAll(fields) + end
    case Fixed32(bs) => bs
  }

  function EncodeAll(fs: Fields): Bytes {
    match fs
    case NoFields => []
    case Next(f, rest) => Encode(f) + EncodeAll(rest)
  }

  // ---------------------------------------------------------------------------
  // What the scanner does
  // ---------------------------------------------------------------------------

  /** One round of the loop: one tag and, for scalar types, its value. Yields the
      next index (negative after an overflow) and the new depth. */
  function SkipOne(d: Bytes, i: nat, depth: nat): (r: Result<(Int64, nat)>)
    requires i < |d| < TWO_63
    ensures r.Ok? && r.value.0 >= 0 ==> i < r.value.0
  {
    match ReadVarint(d, i)
    case Err(e) => Err(e)
    case Ok((tag, j)) =>
      var wireType := tag % 8;
      if wireType == 0 then
        match ReadVarint(d, j)
        case Err(e) => Err(e)
        case Ok((_, next)) => Ok((next, depth))
      else if wireType == 1 then Ok((AddInt64(j, 8), depth))
      else if wireType == 2 then
        match ReadVarint(d, j)
        case Err(e) => Err(e)
        case Ok((v, k)) =>
          var length := ToInt64(v);
          if length < 0 then Err(InvalidLength) else Ok((AddInt64(k, length), depth))
      else if wireType == 3 then Ok((j, depth + 1))
      else if wireType == 4 then
        if depth == 0 then Err(UnexpectedEndOfGroup) else Ok((j, depth - 1))
      else if wireType == 5 then Ok((AddInt64(j, 4), depth))
      else Err(IllegalWireType)
  }

  /** The loop from index `i` on, inside `depth` open groups. The result is not
      bounded by the length of the data: callers compare it themselves. */
  function SkipFrom(d: Bytes, i: nat, depth: nat): (r: Result<nat>)
    requires |d| < TWO_63
    ensures r.Ok? ==> i < r.value < TWO_63
    decreases |d| - i
  {
    if i >= |d| then Err(UnexpectedEOF)
    else
      match SkipOne(d, i, depth)
      case Err(e) => Err(e)
      case Ok((next, depth')) =>
        if next < 0 then Err(InvalidLength)
        else if depth' == 0 then Ok(next)
        else SkipFrom(d, next, depth')
  }

  function SkipField(d: Bytes): (r: Result<nat>)
    requires |d| < TWO_63
    ensures r.Ok? ==> 0 < r.value < TWO_63
  {
    SkipFrom(d, 0, 0)
  }

  // The loop itself.
  method ScanField(d: Bytes) returns (n: int, ok: bool, error: Error)
    requires |d| < TWO_63
    ensures ok <==> SkipField(d).Ok?
    ensures ok ==> SkipField(d) == Ok(n)
    ensures !ok ==> SkipField(d) == Err(error)
  {
    var at: Int64, depth: nat := 0, 0;
    n, ok, error := 0, false, UnexpectedEOF;
    while at < |d|
      invariant 0 <= at
      invariant SkipField(d) == SkipFrom(d, at, depth)
      decreases |d| - at
    {
      var tag, j, good, e := DecodeVarint(d, at);
      if !good {
        return 0, false, e;
      }
      at := j;
      var wireType := tag % 8;
      if wireType == 0 {
        var _, k, good', e' := DecodeVarint(d, at);
        if !good' {
          return 0, false, e';
        }
        at := k;
      } else if wireType == 1 {
        at := AddInt64(at, 8);
      } else if wireType == 2 {
        var v, k, good', e' := DecodeVarint(d, at);
        if !good' {
          return 0, false, e';
        }
        var length := ToInt64(v);
        if length < 0 {
          return 0, false, InvalidLength;
        }
        at := AddInt64(k, length);
      } else if wireType == 3 {
        depth := depth + 1;
      } else if wireType == 4 {
        if depth == 0 {
          return 0, false, UnexpectedEndOfGroup;
        }
        depth := depth - 1;
      } else if wireType == 5 {
        at := AddInt64(at, 4);
      } else {
        return 0, false, IllegalWireType;
      }
      if at < 0 {
        return 0, false, InvalidLength;
      }
      if depth == 0 {
        return at, true, UnexpectedEOF;
      }
    }
  }

  // ---------------------------------------------------------------------------
  // Every well-formed field is skipped exactly
  // ---------------------------------------------------------------------------

  /** Where the scan stands once the field that ends at `i` is done. */
  function After(d: Bytes, i: nat, depth: nat): Result<nat>
    requires |d| < TWO_63
  {
    if depth == 0 then Ok(i) else SkipFrom(d, i, depth)
  }

  lemma ReadAt(a: Bytes, v: Bytes, b: Bytes, d: Bytes)
    requires IsVarint(v) && d == a + v + b
    ensures ReadVarint(d, |a|) == Ok((VarintValue(v), |a + v|))
  {
    ReadVarintAt(a, v, b);
  }

  /** One round of the loop passes over a scalar field. */
  lemma ScalarIsSkipped(a: Bytes, f: Field, b: Bytes, d: Bytes, depth: nat)
    requires WellFormed(f) && !f.body.Group?
    requires d == a + Encode(f) + b && |d| < TWO_63
    ensures SkipOne(d, |a|, depth) == Ok((|a + Encode(f)|, depth))
  {
    var value := Encode(f)[|f.tag|..];
    assert d == a + f.tag + (value + b);
    ReadAt(a, f.tag, value + b, d);
    if f.body.VarintBody? {
      assert d == (a + f.tag) + f.body.value + b;
      ReadAt(a + f.tag, f.body.value, b, d);
    } else if f.body.Delimited? {
      assert d == (a + f.tag) + f.body.length + (f.body.payload + b);
      ReadAt(a + f.tag, f.body.length, f.body.payload + b, d);
    }
  }

  lemma TagIsPassed(a: Bytes, tag: Bytes, b: Bytes, d: Bytes, depth: nat)
    requires d == a + tag + b && |d| < TWO_63
    ensures IsTag(tag, 3) ==> SkipOne(d, |a|, depth) == Ok((|a + tag|, depth + 1))
    ensures IsTag(tag, 4) && depth > 0 ==> SkipOne(d, |a|, depth) == Ok((|a + tag|, depth - 1))
  {
    if IsVarint(tag) {
      ReadAt(a, tag, b, d);
    }
  }

  lemma Rounds(d: Bytes, i: nat, depth: nat)
    requires i < |d| < TWO_63
    requires SkipOne(d, i, depth).Ok? && SkipOne(d, i, depth).value.0 >= 0
    ensures SkipFrom(d, i, depth) == After(d, SkipOne(d, i, depth).value.0, SkipOne(d, i, depth).value.1)
  {
  }

  lemma Regroup(a: Bytes, x: Bytes, y: Bytes, z: Bytes, b: Bytes)
    ensures a + (x + (y + z)) + b == a + x + (y + z + b)
    ensures a + (x + (y + z)) + b == (a + x) + y + (z + b)
    ensures a + (x + (y + z)) + b == (a + x + y) + z + b
    ensures |a + (x + (y + z))| == |a + x + y + z|
  {
  }

  lemma RegroupTwo(a: Bytes, x: Bytes, y: Bytes, b: Bytes)
    ensures a + (x + y) + b == a + x + (y + b)
    ensures a + (x + y) + b == (a + x) + y + b
    ensures a + (x + y) == (a + x) + y
  {
  }

  /** The heart of it: at any depth, the scan passes over a field and stands
      behind it at the depth it came with. */
  lemma {:induction false} FieldIsSkipped(a: Bytes, f: Field, b: Bytes, d: Bytes, depth: nat)
    requires WellFormed(f)
    requires d == a + Encode(f) + b && |d| < TWO_63
    ensures SkipFrom(d, |a|, depth) == After(d, |a + Encode(f)|, depth)
    decreases f
  {
    if f.body.Group? {
      var inner := EncodeAll(f.body.fields);
      var end := f.body.end;
      Regroup(a, f.tag, inner, end, b);
      TagIsPassed(a, f.tag, inner + end + b, d, depth);
      Rounds(d, |a|, depth);
      FieldsAreSkipped(a + f.tag, f.body.fields, end + b, d, depth + 1);
      TagIsPassed(a + f.tag + inner, end, b, d, depth + 1);
      Rounds(d, |a + f.tag + inner|, depth + 1);
    } else {
      ScalarIsSkipped(a, f, b, d, depth);
      Rounds(d, |a|, depth);
    }
  }

  lemma {:induction false} FieldsAreSkipped(a: Bytes, fs: Fields, b: Bytes, d: Bytes, depth: nat)
    requires AllWellFormed(fs) && depth > 0
    requires d == a + EncodeAll(fs) + b && |d| < TWO_63
    ensures SkipFrom(d, |a|, depth) == SkipFrom(d, |a + EncodeAll(fs)|, depth)
    decreases fs
  {
    match fs
    case NoFields =>
      assert a + EncodeAll(fs) == a;
    case Next(f, rest) =>
      RegroupTwo(a, Encode(f), EncodeAll(rest), b);
      FieldIsSkipped(a, f, EncodeAll(rest) + b, d, depth);
      FieldsAreSkipped(a + Encode(f), rest, b, d, depth);
  }

  /** Skipping a well-formed field yields its length, whatever follows it. */
  lemma SkipIsExact(f: Field, rest: Bytes)
    requires WellFormed(f) && |Encode(f) + rest| < TWO_63
    ensures SkipField(Encode(f) + rest) == Ok(|Encode(f)|)
  {
    assert [] + Encode(f) + rest == Encode(f) + rest;
    FieldIsSkipped([], f, rest, Encode(f) + rest, 0);
  }

  // ---------------------------------------------------------------------------
  // Nothing else is skipped
  // ---------------------------------------------------------------------------

  lemma VarintAt(d: Bytes, i: nat)
    requires ReadVarint(d, i).Ok?
    ensures var (v, j) := ReadVarint(d, i).value; IsVarint(d[i..j]) && VarintValue(d[i..j]) == v
  {
    var j := ReadVarint(d, i).value.1;
    assert d == d[..i] + d[i..];
    ReadFromShift(d[..i], d[i..], 0, 0);
    ReadFromTake(d[i..], 0, 0);
    assert d[i..][..j - i] == d[i..j];
  }

  lemma {:induction false} ReadFromTake(d: Bytes, i: nat, k: nat)
    requires ReadFrom(d, i, k).Got?
    ensures ReadFrom(d[..ReadFrom(d, i, k).next], i, k) == ReadFrom(d, i, k)
    decreases 10 - k
  {
    if d[i] >= 128 {
      ReadFromTake(d, i + 1, k + 1);
    }
  }

  /** A round on a scalar type that ends inside the data has passed one field. */
  lemma ScalarAt(d: Bytes, i: nat, depth: nat) returns (f: Field)
    requires i < |d| < TWO_63
    requires SkipOne(d, i, depth).Ok?
    requires 0 <= SkipOne(d, i, depth).value.0 <= |d|
    requires ReadVarint(d, i).value.0 % 8 !in {3, 4}
    ensures WellFormed(f) && Encode(f) == d[i..SkipOne(d, i, depth).value.0]
    ensures SkipOne(d, i, depth).value.1 == depth
  {
    var (tag, j) := ReadVarint(d, i).value;
    var next := SkipOne(d, i, depth).value.0;
    VarintAt(d, i);
    assert d[i..next] == d[i..j] + d[j..next];
    if tag % 8 == 0 {
      VarintAt(d, j);
      f := Field(d[i..j], VarintBody(d[j..next]));
    } else if tag % 8 == 1 {
      f := Field(d[i..j], Fixed64(d[j..next]));
    } else if tag % 8 == 2 {
      VarintAt(d, j);
      var k := ReadVarint(d, j).value.1;
      assert d[j..next] == d[j..k] + d[k..next];
      f := Field(d[i..j], Delimited(d[j..k], d[k..next]));
    } else {
      f := Field(d[i..j], Fixed32(d[j..next]));
    }
  }

  /** A scan that succeeds inside a group has passed the rest of that group. */
  lemma {:induction false} RestOfGroup(d: Bytes, i: nat, depth: nat)
    returns (fs: Fields, end: Bytes, after: nat)
    requires |d| < TWO_63 && depth > 0
    requires SkipFrom(d, i, depth).Ok?
    ensures i < after <= |d|
    ensures AllWellFormed(fs) && IsTag(end, 4)
    ensures d[i..after] == EncodeAll(fs) + end
    ensures After(d, after, depth - 1) == SkipFrom(d, i, depth)
    decreases |d| - i, 1
  {
    var (tag, j) := ReadVarint(d, i).value;
    Rounds(d, i, depth);
    if tag % 8 == 4 {
      VarintAt(d, i);
      fs, end, after := NoFields, d[i..j], j;
    } else {
      var f, at := FieldOfGroup(d, i, depth);
      var rest;
      rest, end, after := RestOfGroup(d, at, depth);
      fs := Next(f, rest);
      Joined(d, i, at, after, Encode(f), EncodeAll(rest), end);
    }
  }

  lemma {:induction false} FieldOfGroup(d: Bytes, i: nat, depth: nat) returns (f: Field, after: nat)
    requires |d| < TWO_63 && depth > 0
    requires SkipFrom(d, i, depth).Ok? && ReadVarint(d, i).value.0 % 8 != 4
    ensures i < after <= |d|
    ensures WellFormed(f) && Encode(f) == d[i..after]
    ensures SkipFrom(d, after, depth) == SkipFrom(d, i, depth)
    decreases |d| - i, 0
  {
    var (tag, j) := ReadVarint(d, i).value;
    Rounds(d, i, depth);
    if tag % 8 == 3 {
      var inner, end;
      inner, end, after := RestOfGroup(d, j, depth + 1);
      f := GroupAt(d, i, inner, end, after);
    } else {
      after := SkipOne(d, i, depth).value.0;
      f := ScalarAt(d, i, depth);
    }
  }

  lemma GroupAt(d: Bytes, i: nat, inner: Fields, end: Bytes, after: nat) returns (f: Field)
    requires ReadVarint(d, i).Ok? && ReadVarint(d, i).value.0 % 8 == 3
    requires ReadVarint(d, i).value.1 <= after <= |d|
    requires AllWellFormed(inner) && IsTag(end, 4)
    requires d[ReadVarint(d, i).value.1..after] == EncodeAll(inner) + end
    ensures WellFormed(f) && Encode(f) == d[i..after]
  {
    var j := ReadVarint(d, i).value.1;
    VarintAt(d, i);
    f := Field(d[i..j], Group(inner, end));
    assert d[i..after] == d[i..j] + d[j..after];
  }

  lemma Joined(d: Bytes, i: nat, j: nat, k: nat, x: Bytes, y: Bytes, z: Bytes)
    requires i <= j <= k <= |d|
    requires d[i..j] == x && d[j..k] == y + z
    ensures d[i..k] == (x + y) + z
  {
    assert d[i..k] == d[i..j] + d[j..k];
  }

  lemma SkippedIsField(d: Bytes) returns (f: Field)
    requires |d| < TWO_63
    requires SkipField(d).Ok? && SkipField(d).value <= |d|
    ensures WellFormed(f) && Encode(f) == d[..SkipField(d).value]
  {
    var (tag, j) := ReadVarint(d, 0).value;
    var n := SkipField(d).value;
    if tag % 8 == 3 {
      var fs, end, after := RestOfGroup(d, j, 1);
      f := GroupAt(d, 0, fs, end, after);
      assert d[..n] == d[0..n];
    } else {
      f := ScalarAt(d, 0, 0);
      assert d[..n] == d[0..n];
    }
  }

  /** The scanner accepts a prefix if and only if it is a well-formed field. */
  lemma SkipRecognisesFields(d: Bytes, n: nat)
    requires n <= |d| < TWO_63
    ensures SkipField(d) == Ok(n) <==> exists f :: WellFormed(f) && Encode(f) == d[..n]
  {
    if SkipField(d) == Ok(n) {
      var f := SkippedIsField(d);
    }
    forall f | WellFormed(f) && Encode(f) == d[..n]
      ensures SkipField(d) == Ok(n)
    {
      assert d == Encode(f) + d[n..];
      SkipIsExact(f, d[n..]);
    }
  }

  /** Skipping looks only at the field: appending bytes changes nothing. */
  lemma SkipPrefix(d: Bytes, b: Bytes)
    requires |d + b| < TWO_63
    requires SkipField(d).Ok? && SkipField(d).value <= |d|
    ensures SkipField(d + b) == SkipField(d)
  {
    var n := SkipField(d).value;
    var f := SkippedIsField(d);
    assert d + b == Encode(f) + (d[n..] + b);
    SkipIsExact(f, d[n..] + b);
  }
}
