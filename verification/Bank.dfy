/** Coins, balances and the bank's own transfers, below any hook: what the SDK's
    base keeper does to the balances, and what that amounts to.
  */
module Bank {
  import opened Options
  import opened Denoms

  datatype Coin = Coin(denom: string, amount: int)
  type Coins = seq<Coin>
  type Balances = map<(Address, string), nat>

  /** One recipient of a multi-send, or its one sender. */
  datatype Party = Party(address: string, coins: Coins)

  // ---------------------------------------------------------------------------
  // Coins
  // ---------------------------------------------------------------------------

  /** Byte-wise string order. */
  predicate Less(a: string, b: string) {
    b != "" && (a == "" || a[0] < b[0] || (a[0] == b[0] && Less(a[1..], b[1..])))
  }

  /** Coin lists are valid when every denom is, every amount is positive, and the
      denoms are strictly sorted. The empty list is valid. */
  predicate ValidCoins(coins: Coins) {
    && (forall k :: 0 <= k < |coins| ==> ValidDenom(coins[k].denom) && coins[k].amount > 0)
    && (forall j, k :: 0 <= j < k < |coins| ==> Less(coins[j].denom, coins[k].denom))
  }

  predicate Positive(coins: Coins) {
    forall k :: 0 <= k < |coins| ==> coins[k].amount > 0
  }

  /** A single coin as the messages check it: valid denom, amount not zero. */
  predicate ValidCoin(coin: Coin) {
    ValidDenom(coin.denom) && coin.amount > 0
  }

  /** How much of a denom a list of coins holds. */
  function AmountOf(coins: Coins, denom: string): int {
    if coins == [] then 0
    else (if coins[0].denom == denom then coins[0].amount else 0) + AmountOf(coins[1..], denom)
  }

  lemma {:induction false} AmountNotNegative(coins: Coins, denom: string)
    requires Positive(coins)
    ensures AmountOf(coins, denom) >= 0
    decreases |coins|
  {
    if coins != [] {
      AmountNotNegative(coins[1..], denom);
    }
  }

  lemma {:induction false} LessIrreflexive(a: string)
    ensures !Less(a, a)
    decreases |a|
  {
    if a != "" {
      LessIrreflexive(a[1..]);
    }
  }

  /** Valid coins name no denom twice, so each amount is that of its denom. */
  lemma {:induction false} EachDenomOnce(coins: Coins, k: nat)
    requires ValidCoins(coins) && k < |coins|
    ensures AmountOf(coins, coins[k].denom) == coins[k].amount
    decreases |coins|
  {
    var d := coins[k].denom;
    assert ValidCoins(coins[1..]);
    if k == 0 {
      NotLater(coins[1..], d);
    } else {
      EachDenomOnce(coins[1..], k - 1);
      LessIrreflexive(d);
    }
  }

  lemma {:induction false} NotLater(coins: Coins, d: string)
    requires forall k :: 0 <= k < |coins| ==> Less(d, coins[k].denom)
    ensures AmountOf(coins, d) == 0
    decreases |coins|
  {
    if coins != [] {
      LessIrreflexive(d);
      NotLater(coins[1..], d);
    }
  }

  // ---------------------------------------------------------------------------
  // Balances
  // ---------------------------------------------------------------------------

  function Balance(b: Balances, a: Address, denom: string): nat {
    if (a, denom) in b then b[(a, denom)] else 0
  }

  function SubCoins(b: Balances, a: Address, coins: Coins): Option<Balances>
    requires Positive(coins)
    decreases |coins|
  {
    if coins == [] then Some(b)
    else if Balance(b, a, coins[0].denom) < coins[0].amount then None
    else SubCoins(b[(a, coins[0].denom) := Balance(b, a, coins[0].denom) - coins[0].amount], a, coins[1..])
  }

  function AddCoins(b: Balances, a: Address, coins: Coins): Balances
    requires Positive(coins)
    decreases |coins|
  {
    if coins == [] then b
    else AddCoins(b[(a, coins[0].denom) := Balance(b, a, coins[0].denom) + coins[0].amount], a, coins[1..])
  }

  /** The base keeper's transfer. */
  function Transfer(b: Balances, from: Address, to: Address, coins: Coins): Option<Balances> {
    if !ValidCoins(coins) then None
    else
      match SubCoins(b, from, coins)
      case None => None
      case Some(b') => Some(AddCoins(b', to, coins))
  }

  /** Does the account hold all these coins? */
  ghost predicate Covers(b: Balances, a: Address, coins: Coins) {
    forall d :: AmountOf(coins, d) <= Balance(b, a, d)
  }

  lemma {:induction false} SubCoinsEffect(b: Balances, a: Address, coins: Coins)
    requires Positive(coins)
    ensures SubCoins(b, a, coins).Some? <==> Covers(b, a, coins)
    ensures SubCoins(b, a, coins).Some? ==>
              forall x, d :: Balance(SubCoins(b, a, coins).value, x, d)
                             == Balance(b, x, d) - if x == a then AmountOf(coins, d) else 0
    decreases |coins|
  {
    if coins != [] {
      var coin := coins[0];
      AmountNotNegative(coins[1..], coin.denom);
      if Balance(b, a, coin.denom) < coin.amount {
        assert AmountOf(coins, coin.denom) > Balance(b, a, coin.denom);
      } else {
        var b' := b[(a, coin.denom) := Balance(b, a, coin.denom) - coin.amount];
        SubCoinsEffect(b', a, coins[1..]);
        if Covers(b, a, coins) {
          forall d
            ensures AmountOf(coins[1..], d) <= Balance(b', a, d)
          {
            assert AmountOf(coins, d) <= Balance(b, a, d);
          }
        } else {
          var d :| AmountOf(coins, d) > Balance(b, a, d);
          assert AmountOf(coins[1..], d) > Balance(b', a, d);
        }
      }
    }
  }

  lemma {:induction false} AddCoinsEffect(b: Balances, a: Address, coins: Coins)
    requires Positive(coins)
    ensures forall x, d :: Balance(AddCoins(b, a, coins), x, d)
                           == Balance(b, x, d) + if x == a then AmountOf(coins, d) else 0
    decreases |coins|
  {
    if coins != [] {
      AddCoinsEffect(b[(a, coins[0].denom) := Balance(b, a, coins[0].denom) + coins[0].amount], a, coins[1..]);
    }
  }

  /** A transfer succeeds exactly when the coins are valid and the sender has
      them; then it moves these amounts, and no other balance changes. */
  lemma TransferEffect(b: Balances, from: Address, to: Address, coins: Coins)
    ensures Transfer(b, from, to, coins).Some? <==> ValidCoins(coins) && Covers(b, from, coins)
    ensures Transfer(b, from, to, coins).Some? ==>
              forall x, d :: Balance(Transfer(b, from, to, coins).value, x, d)
                             == Balance(b, x, d) - (if x == from then AmountOf(coins, d) else 0)
                                + (if x == to then AmountOf(coins, d) else 0)
  {
    if ValidCoins(coins) {
      SubCoinsEffect(b, from, coins);
      if SubCoins(b, from, coins).Some? {
        AddCoinsEffect(SubCoins(b, from, coins).value, to, coins);
      }
    }
  }

  // ---------------------------------------------------------------------------
  // Multi-send
  // ---------------------------------------------------------------------------

  function TotalOf(parties: seq<Party>, denom: string): int {
    if parties == [] then 0 else AmountOf(parties[0].coins, denom) + TotalOf(parties[1..], denom)
  }

  function DenomsOf(coins: Coins): set<string> {
    set k | 0 <= k < |coins| :: coins[k].denom
  }

  function AllDenoms(parties: seq<Party>): set<string> {
    if parties == [] then {} else DenomsOf(parties[0].coins) + AllDenoms(parties[1..])
  }

  /** An input or output passes its own check. */
  predicate ValidParty(codec: Codec, p: Party) {
    codec.decode(p.address).Some? && ValidCoins(p.coins) && p.coins != []
  }

  /** What goes in comes out, denom by denom, and all parties are valid. */
  predicate ValidInputOutputs(codec: Codec, input: Party, outputs: seq<Party>) {
    && ValidParty(codec, input)
    && (forall k :: 0 <= k < |outputs| ==> ValidParty(codec, outputs[k]))
    && (forall d :: d in DenomsOf(input.coins) + AllDenoms(outputs) ==>
          AmountOf(input.coins, d) == TotalOf(outputs, d))
  }

  function Credit(codec: Codec, b: Balances, outputs: seq<Party>): Balances
    requires forall k :: 0 <= k < |outputs| ==> ValidParty(codec, outputs[k])
    decreases |outputs|
  {
    if outputs == [] then b
    else
      assert ValidParty(codec, outputs[0]);
      Credit(codec, AddCoins(b, codec.decode(outputs[0].address).value, outputs[0].coins), outputs[1..])
  }

  /** The base keeper's transfer from one account to many. */
  function Distribute(codec: Codec, b: Balances, input: Party, outputs: seq<Party>): Option<Balances> {
    if !ValidInputOutputs(codec, input, outputs) then None
    else
      match SubCoins(b, codec.decode(input.address).value, input.coins)
      case None => None
      case Some(b') => Some(Credit(codec, b', outputs))
  }

  /** What the outputs give to one account. */
  function Receives(codec: Codec, outputs: seq<Party>, a: Address, denom: string): int {
    if outputs == [] then 0
    else (if codec.decode(outputs[0].address) == Some(a) then AmountOf(outputs[0].coins, denom) else 0)
         + Receives(codec, outputs[1..], a, denom)
  }

  lemma {:induction false} AmountOfAbsent(coins: Coins, d: string)
    requires d !in DenomsOf(coins)
    ensures AmountOf(coins, d) == 0
    decreases |coins|
  {
    if coins != [] {
      assert coins[0].denom in DenomsOf(coins);
      assert forall k :: 0 <= k < |coins[1..]| ==> coins[1..][k] == coins[k + 1];
      assert DenomsOf(coins[1..]) <= DenomsOf(coins);
      AmountOfAbsent(coins[1..], d);
    }
  }

  lemma {:induction false} TotalOfAbsent(parties: seq<Party>, d: string)
    requires d !in AllDenoms(parties)
    ensures TotalOf(parties, d) == 0
    decreases |parties|
  {
    if parties != [] {
      AmountOfAbsent(parties[0].coins, d);
      TotalOfAbsent(parties[1..], d);
    }
  }

  /** The check on finitely many denoms settles it for all of them. */
  lemma InputIsOutput(codec: Codec, input: Party, outputs: seq<Party>, d: string)
    requires ValidInputOutputs(codec, input, outputs)
    ensures AmountOf(input.coins, d) == TotalOf(outputs, d)
  {
    if d !in DenomsOf(input.coins) + AllDenoms(outputs) {
      AmountOfAbsent(input.coins, d);
      TotalOfAbsent(outputs, d);
    }
  }

  lemma {:induction false} CreditEffect(codec: Codec, b: Balances, outputs: seq<Party>)
    requires forall k :: 0 <= k < |outputs| ==> ValidParty(codec, outputs[k])
    ensures forall x, d :: Balance(Credit(codec, b, outputs), x, d)
                           == Balance(b, x, d) + Receives(codec, outputs, x, d)
    decreases |outputs|
  {
    if outputs != [] {
      var a := codec.decode(outputs[0].address).value;
      AddCoinsEffect(b, a, outputs[0].coins);
      CreditEffect(codec, AddCoins(b, a, outputs[0].coins), outputs[1..]);
    }
  }

  /** A multi-send succeeds exactly when it balances and the sender has the coins;
      then the sender is debited the input and everyone gets their outputs. */
  lemma DistributeEffect(codec: Codec, b: Balances, input: Party, outputs: seq<Party>)
    ensures Distribute(codec, b, input, outputs).Some? <==>
              && ValidInputOutputs(codec, input, outputs)
              && Covers(b, codec.decode(input.address).value, input.coins)
    ensures Distribute(codec, b, input, outputs).Some? ==>
              forall x, d :: Balance(Distribute(codec, b, input, outputs).value, x, d)
                             == Balance(b, x, d)
                                - (if codec.decode(input.address) == Some(x) then AmountOf(input.coins, d) else 0)
                                + Receives(codec, outputs, x, d)
  {
    if ValidInputOutputs(codec, input, outputs) {
      var a := codec.decode(input.address).value;
      SubCoinsEffect(b, a, input.coins);
      if SubCoins(b, a, input.coins).Some? {
        CreditEffect(codec, SubCoins(b, a, input.coins).value, outputs);
      }
    }
  }

  // ---------------------------------------------------------------------------
  // The sum of all balances
  // ---------------------------------------------------------------------------

  ghost function Sum(b: Balances, d: string): nat
    decreases |b|
  {
    if b == map[] then 0
    else
      var k :| k in b;
      (if k.1 == d then b[k] else 0) + Sum(b - {k}, d)
  }

  lemma {:induction false} SumWithout(b: Balances, k: (Address, string), d: string)
    requires k in b
    ensures Sum(b, d) == (if k.1 == d then b[k] else 0) + Sum(b - {k}, d)
    decreases |b|
  {
    var j :| j in b && Sum(b, d) == (if j.1 == d then b[j] else 0) + Sum(b - {j}, d);
    if j != k {
      SumWithout(b - {j}, k, d);
      SumWithout(b - {k}, j, d);
      assert b - {j} - {k} == b - {k} - {j};
    }
  }

  lemma SumUpdate(b: Balances, a: Address, denom: string, v: nat, d: string)
    ensures Sum(b[(a, denom) := v], d) == Sum(b, d) + if d == denom then v - Balance(b, a, denom) else 0
  {
    var k := (a, denom);
    SumWithout(b[k := v], k, d);
    assert b[k := v] - {k} == b - {k};
    if k in b {
      SumWithout(b, k, d);
    } else {
      assert b - {k} == b;
    }
  }

  lemma {:induction false} SubCoinsSum(b: Balances, a: Address, coins: Coins, d: string)
    requires Positive(coins) && SubCoins(b, a, coins).Some?
    ensures Sum(SubCoins(b, a, coins).value, d) == Sum(b, d) - AmountOf(coins, d)
    decreases |coins|
  {
    if coins != [] {
      var v := Balance(b, a, coins[0].denom) - coins[0].amount;
      SumUpdate(b, a, coins[0].denom, v, d);
      SubCoinsSum(b[(a, coins[0].denom) := v], a, coins[1..], d);
    }
  }

  lemma {:induction false} AddCoinsSum(b: Balances, a: Address, coins: Coins, d: string)
    requires Positive(coins)
    ensures Sum(AddCoins(b, a, coins), d) == Sum(b, d) + AmountOf(coins, d)
    decreases |coins|
  {
    if coins != [] {
      var v := Balance(b, a, coins[0].denom) + coins[0].amount;
      SumUpdate(b, a, coins[0].denom, v, d);
      AddCoinsSum(b[(a, coins[0].denom) := v], a, coins[1..], d);
    }
  }

  /** A transfer moves coins but makes none. */
  lemma TransferSum(b: Balances, from: Address, to: Address, coins: Coins, d: string)
    requires Transfer(b, from, to, coins).Some?
    ensures Sum(Transfer(b, from, to, coins).value, d) == Sum(b, d)
  {
    SubCoinsSum(b, from, coins, d);
    AddCoinsSum(SubCoins(b, from, coins).value, to, coins, d);
  }

  lemma {:induction false} CreditSum(codec: Codec, b: Balances, outputs: seq<Party>, d: string)
    requires forall k :: 0 <= k < |outputs| ==> ValidParty(codec, outputs[k])
    ensures Sum(Credit(codec, b, outputs), d) == Sum(b, d) + TotalOf(outputs, d)
    decreases |outputs|
  {
    if outputs != [] {
      var a := codec.decode(outputs[0].address).value;
      AddCoinsSum(b, a, outputs[0].coins, d);
      CreditSum(codec, AddCoins(b, a, outputs[0].coins), outputs[1..], d);
    }
  }

  lemma DistributeSum(codec: Codec, b: Balances, input: Party, outputs: seq<Party>, d: string)
    requires Distribute(codec, b, input, outputs).Some?
    ensures Sum(Distribute(codec, b, input, outputs).value, d) == Sum(b, d)
  {
    var a := codec.decode(input.address).value;
    SubCoinsSum(b, a, input.coins, d);
    CreditSum(codec, SubCoins(b, a, input.coins).value, outputs, d);
    InputIsOutput(codec, input, outputs, d);
  }
}
