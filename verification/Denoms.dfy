/** Addresses and token-factory denoms: `factory/{creator}/{subdenom}`. Go strings
    are byte strings; a `char` here stands for one byte.
  */
module Denoms {
  import opened Options

  type Address = string

  /** An address codec: a partial decoding and an encoding that it inverts. */
  datatype Codec = Codec(decode: string -> Option<Address>, encode: Address -> string) {
    ghost predicate Valid() {
      && decode("") == None
      && (forall s :: decode(s).Some? ==> decode(s).value != "")
      && (forall a :: a != "" ==> decode(encode(a)) == Some(a))
    }

    /** The string that encodes the address which `s` denotes. */
    function Canonical(s: string): string
      requires decode(s).Some?
    {
      encode(decode(s).value)
    }
  }

  // ---------------------------------------------------------------------------
  // Splitting and joining at slashes
  // ---------------------------------------------------------------------------

  /** `strings.Split(s, "/")` */
  function Split(s: string): (parts: seq<string>)
    ensures parts != []
    decreases |s|
  {
    if s == "" then [""]
    else if s[0] == '/' then [""] + Split(s[1..])
    else
      var rest := Split(s[1..]);
      [[s[0]] + rest[0]] + rest[1..]
  }

  /** `strings.Join(parts, "/")` */
  function Join(parts: seq<string>): string {
    if parts == [] then ""
    else if |parts| == 1 then parts[0]
    else parts[0] + "/" + Join(parts[1..])
  }

  lemma {:induction false} JoinSplit(s: string)
    ensures Join(Split(s)) == s
    decreases |s|
  {
    if s != "" {
      JoinSplit(s[1..]);
      var rest := Split(s[1..]);
      if s[0] == '/' {
        assert Split(s)[1..] == rest;
        JoinMore(Split(s));
      } else if |rest| > 1 {
        assert Split(s)[1..] == rest[1..];
        JoinMore(rest);
        JoinMore(Split(s));
      }
    }
  }

  /** The part before the first slash comes first, and what follows is split on. */
  lemma {:induction false} SplitAtSlash(a: string, b: string)
    requires '/' !in a
    ensures Split(a + "/" + b) == [a] + Split(b)
    decreases |a|
  {
    var s := a + "/" + b;
    if a == "" {
      assert s[1..] == b;
    } else {
      assert s[1..] == a[1..] + "/" + b;
      SplitAtSlash(a[1..], b);
      assert [a[0]] + a[1..] == a;
      assert Split(s) == [[a[0]] + a[1..]] + Split(b);
    }
  }

  lemma {:induction false} PartsHaveNoSlash(s: string, k: nat)
    requires k < |Split(s)|
    ensures '/' !in Split(s)[k]
    decreases |s|
  {
    if s != "" {
      if s[0] == '/' {
        if k > 0 {
          PartsHaveNoSlash(s[1..], k - 1);
        }
      } else {
        PartsHaveNoSlash(s[1..], k);
      }
    }
  }

  // ---------------------------------------------------------------------------
  // Denoms
  // ---------------------------------------------------------------------------

  const MODULE_DENOM_PREFIX := "factory"
  const MAX_SUBDENOM_LENGTH := 44
  const MAX_HRP_LENGTH := 16
  const MAX_CREATOR_LENGTH := 59 + MAX_HRP_LENGTH
  const MAX_DENOM_LENGTH := 128

  predicate IsLetter(c: char) {
    'a' <= c <= 'z' || 'A' <= c <= 'Z'
  }

  predicate IsDenomChar(c: char) {
    IsLetter(c) || '0' <= c <= '9' || c in {'/', ':', '.', '_', '-'}
  }

  /** The SDK's rule for denoms: a letter and 2 to 127 more characters. */
  predicate ValidDenom(d: string) {
    && 3 <= |d| <= MAX_DENOM_LENGTH
    && IsLetter(d[0])
    && forall k :: 0 < k < |d| ==> IsDenomChar(d[k])
  }

  datatype DenomError = SubdenomTooLong | CreatorTooLong | InvalidCreator | InvalidDenom
  datatype DenomResult<+T> = Good(value: T) | Bad(error: DenomError)

  function FactoryDenom(creator: string, subdenom: string): string {
    Join([MODULE_DENOM_PREFIX, creator, subdenom])
  }

  function GetTokenDenom(creator: string, subdenom: string): DenomResult<string> {
    if |subdenom| > MAX_SUBDENOM_LENGTH then Bad(SubdenomTooLong)
    else if |creator| > MAX_CREATOR_LENGTH then Bad(CreatorTooLong)
    else if '/' in creator then Bad(InvalidCreator)
    else
      var denom := FactoryDenom(creator, subdenom);
      if ValidDenom(denom) then Good(denom) else Bad(InvalidDenom)
  }

  /** The canonical creator and the subdenom of a token-factory denom. */
  function DeconstructDenom(codec: Codec, denom: string): DenomResult<(string, string)> {
    if !ValidDenom(denom) then Bad(InvalidDenom)
    else
      var parts := Split(denom);
      if |parts| < 3 then Bad(InvalidDenom)
      else if parts[0] != MODULE_DENOM_PREFIX then Bad(InvalidDenom)
      else
        match codec.decode(parts[1])
        case None => Bad(InvalidDenom)
        case Some(address) => Good((codec.encode(address), Join(parts[2..])))
  }

  lemma FactoryDenomShape(creator: string, subdenom: string)
    ensures FactoryDenom(creator, subdenom) == "factory" + "/" + (creator + "/" + subdenom)
  {
    assert ["factory", creator, subdenom][1..] == [creator, subdenom];
    assert [creator, subdenom][1..] == [subdenom];
    assert Join([creator, subdenom]) == creator + "/" + subdenom;
  }

  lemma SplitFactoryDenom(creator: string, subdenom: string)
    requires '/' !in creator
    ensures Split(FactoryDenom(creator, subdenom)) == ["factory", creator] + Split(subdenom)
  {
    FactoryDenomShape(creator, subdenom);
    SplitAtSlash("factory", creator + "/" + subdenom);
    SplitAtSlash(creator, subdenom);
  }

  /** A denom deconstructs if and only if it is valid and built from a creator
      that denotes an address; then the parts are that creator in canonical form
      and the whole subdenom, slashes included. */
  lemma DeconstructExactly(codec: Codec, denom: string, creator: string, subdenom: string)
    requires '/' !in creator
    requires denom == FactoryDenom(creator, subdenom)
    ensures DeconstructDenom(codec, denom).Good? <==> ValidDenom(denom) && codec.decode(creator).Some?
    ensures DeconstructDenom(codec, denom).Good? ==>
              DeconstructDenom(codec, denom) == Good((codec.Canonical(creator), subdenom))
  {
    SplitFactoryDenom(creator, subdenom);
    var parts := Split(denom);
    assert parts[2..] == Split(subdenom);
    JoinSplit(subdenom);
  }

  /** Every denom that deconstructs is built from some creator and subdenom. */
  lemma DeconstructedIsBuilt(codec: Codec, denom: string) returns (creator: string, subdenom: string)
    requires DeconstructDenom(codec, denom).Good?
    ensures '/' !in creator && denom == FactoryDenom(creator, subdenom)
  {
    var parts := Split(denom);
    creator, subdenom := parts[1], Join(parts[2..]);
    PartsHaveNoSlash(denom, 1);
    JoinSplit(denom);
    JoinMore(parts[1..]);
    JoinMore(parts);
    assert parts[1..][1..] == parts[2..];
    FactoryDenomShape(creator, subdenom);
  }

  lemma JoinMore(parts: seq<string>)
    requires |parts| >= 2
    ensures Join(parts) == parts[0] + "/" + Join(parts[1..])
  {
  }

  /** Building and then taking apart gives back what was put in. */
  lemma BuildThenDeconstruct(codec: Codec, creator: string, subdenom: string)
    requires GetTokenDenom(creator, subdenom).Good? && codec.decode(creator).Some?
    ensures DeconstructDenom(codec, GetTokenDenom(creator, subdenom).value) ==
              Good((codec.Canonical(creator), subdenom))
  {
    DeconstructExactly(codec, GetTokenDenom(creator, subdenom).value, creator, subdenom);
  }

  /** Different creators or subdenoms never share a denom. */
  lemma BuildIsInjective(c: string, s: string, c': string, s': string)
    requires '/' !in c && '/' !in c'
    requires FactoryDenom(c, s) == FactoryDenom(c', s')
    ensures c == c' && s == s'
  {
    SplitFactoryDenom(c, s);
    SplitFactoryDenom(c', s');
    var parts := Split(FactoryDenom(c, s));
    assert parts[1] == c && parts[1] == c';
    assert parts[2..] == Split(s) && parts[2..] == Split(s');
    JoinSplit(s);
    JoinSplit(s');
  }

  /** The length limits on creator and subdenom keep within the SDK's limit, so
      length is never the reason why a built denom is invalid. */
  lemma BuiltDenomFits(creator: string, subdenom: string)
    requires |subdenom| <= MAX_SUBDENOM_LENGTH && |creator| <= MAX_CREATOR_LENGTH
    ensures 3 <= |FactoryDenom(creator, subdenom)| <= MAX_DENOM_LENGTH
  {
    FactoryDenomShape(creator, subdenom);
  }

  /** Which names can be built: those within the length limits, with a creator without
      slash, of characters that denoms may have. Nothing else can go wrong. */
  lemma BuiltExactly(creator: string, subdenom: string)
    ensures GetTokenDenom(creator, subdenom).Good? <==>
              && |subdenom| <= 44 && |creator| <= 75 && '/' !in creator
              && (forall c :: c in creator ==> IsDenomChar(c))
              && (forall c :: c in subdenom ==> IsDenomChar(c))
    ensures GetTokenDenom(creator, subdenom).Good? ==>
              GetTokenDenom(creator, subdenom).value == "factory/" + creator + "/" + subdenom
  {
    FactoryDenomShape(creator, subdenom);
    var d := FactoryDenom(creator, subdenom);
    var n := |creator|;
    assert d == "factory/" + creator + "/" + subdenom;
    assert forall k :: 0 <= k < n ==> d[8 + k] == creator[k];
    assert forall k :: 0 <= k < |subdenom| ==> d[9 + n + k] == subdenom[k];
    if |subdenom| <= 44 && n <= 75 {
      BuiltDenomFits(creator, subdenom);
      if ValidDenom(d) {
        forall c | c in creator ensures IsDenomChar(c) {
          var k :| 0 <= k < n && creator[k] == c;
          assert IsDenomChar(d[8 + k]);
        }
        forall c | c in subdenom ensures IsDenomChar(c) {
          var k :| 0 <= k < |subdenom| && subdenom[k] == c;
          assert IsDenomChar(d[9 + n + k]);
        }
      }
    }
  }
}
