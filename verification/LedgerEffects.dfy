/** What minting and burning come to: when they go through, whatever hooks do, and
    what exactly they change when there is no hook.
  */
module LedgerEffects {
  import opened Options
  import opened Denoms
  import opened Bank
  import opened Ledger
  import opened LedgerLaws
  import opened LedgerNest
  import opened LedgerTheorems
  import opened LedgerCreation

  // ---------------------------------------------------------------------------
  // Minting
  // ---------------------------------------------------------------------------

  function RecipientOf(env: Env, sender: string, to: string): Option<Address> {
    env.codec.decode(if to == "" then sender else to)
  }

  predicate MayMint(env: Env, st: State, sender: string, coin: Coin, to: string) {
    && IsAddress(env, sender) && ValidCoin(coin)
    && coin.denom in st.metadata && IsAdmin(st, coin.denom, sender) && IsFactoryDenom(env, coin.denom)
    && RecipientOf(env, sender, to).Some? && RecipientOf(env, sender, to).value !in env.modules
  }

  /** The coins just minted are still there when the hooks are done. */
  lemma MintedIsThere(env: Env, w: World, coin: Coin, to: Address)
    requires env.Valid() && ValidCoin(coin)
    ensures var minted := w.(st := MintCoins(env, w.st, coin));
            Covers(Asked(env, minted, env.factory, to, [coin]).st.balances, env.factory, [coin])
  {
    var minted := w.(st := MintCoins(env, w.st, coin));
    var blocked := Listener(env, minted, Block, env.factory, to, [coin]).w;
    var asked := Asked(env, minted, env.factory, to, [coin]);
    MintCoinsIssues(env, w.st, coin);
    ListenerEvolves(env, minted, Block, env.factory, to, [coin]);
    ListenerEvolves(env, blocked, Track, env.factory, to, [coin]);
    assert FactoryKept(env, minted.st, blocked.st) && FactoryKept(env, blocked.st, asked.st);
    forall d ensures AmountOf([coin], d) <= Balance(asked.st.balances, env.factory, d) {
      PartIsAmount(coin, d);
    }
  }

  /** A mint goes through exactly when its checks pass and the denom's hook does not
      object: no hook, however it re-enters, can take the new coins away first. */
  lemma MintCompletes(env: Env, w: World, sender: string, coin: Coin, to: string)
    requires env.Valid()
    ensures HandleMint(env, w, sender, coin, to).out.Succeeded? <==>
              && MayMint(env, w.st, sender, coin, to)
              && Listener(env, w.(st := MintCoins(env, w.st, coin)), Block, env.factory,
                          RecipientOf(env, sender, to).value, [coin]).out.Succeeded?
  {
    if MayMint(env, w.st, sender, coin, to) {
      var recipient := RecipientOf(env, sender, to).value;
      var minted := w.(st := MintCoins(env, w.st, coin));
      MintedIsThere(env, w, coin, recipient);
      SendSucceedsIff(env, minted, env.factory, recipient, [coin]);
      assert HandleMint(env, w, sender, coin, to) ==
             Record(SendCoins(env, minted, env.factory, recipient, [coin]), sender, |w.st.journal|, Minted(coin));
    }
  }

  /** `amount` more of `denom` for account `a`, and no other balance changed. */
  ghost predicate Gains(b: Balances, b': Balances, a: Address, denom: string, amount: int) {
    forall x, d :: Balance(b', x, d) == Balance(b, x, d) + if x == a && d == denom then amount else 0
  }

  ghost predicate SupplyGains(st: State, st': State, denom: string, amount: int) {
    forall d :: SupplyOf(st', d) == SupplyOf(st, d) + if d == denom then amount else 0
  }

  /** Without a hook, a mint goes through whenever its checks pass; the recipient
      and the supply gain the coin, the mint is recorded, and nothing else changes. */
  lemma PlainMint(env: Env, w: World, sender: string, coin: Coin, to: string)
    requires env.Valid() && HookOf(w.st, coin.denom) == ""
    ensures HandleMint(env, w, sender, coin, to).out.Succeeded? <==> MayMint(env, w.st, sender, coin, to)
    ensures MayMint(env, w.st, sender, coin, to) ==>
              var w' := HandleMint(env, w, sender, coin, to).w;
              && w' == w.(st := w.st.(balances := w'.st.balances, supply := w'.st.supply,
                                      journal := w.st.journal + [Entry(sender, |w.st.journal|, Minted(coin))]))
              && Gains(w.st.balances, w'.st.balances, RecipientOf(env, sender, to).value, coin.denom, coin.amount)
              && SupplyGains(w.st, w'.st, coin.denom, coin.amount)
  {
    if MayMint(env, w.st, sender, coin, to) {
      var recipient := RecipientOf(env, sender, to).value;
      var minted := w.(st := MintCoins(env, w.st, coin));
      UnhookedListener(env, minted, Block, env.factory, recipient, [coin]);
      UnhookedListener(env, minted, Track, env.factory, recipient, [coin]);
      MintCompletes(env, w, sender, coin, to);
      assert HandleMint(env, w, sender, coin, to) ==
             Record(BaseSend(minted, env.factory, recipient, [coin]), sender, |w.st.journal|, Minted(coin));
      MintGains(env, w.st, recipient, coin);
      MintCoinsIssues(env, w.st, coin);
    }
  }

  lemma MintGains(env: Env, st: State, to: Address, coin: Coin)
    requires ValidCoin(coin) && to != env.factory
    ensures var b := Transfer(MintCoins(env, st, coin).balances, env.factory, to, [coin]);
            b.Some? ==> Gains(st.balances, b.value, to, coin.denom, coin.amount)
  {
    AddCoinsEffect(st.balances, env.factory, [coin]);
    TransferEffect(MintCoins(env, st, coin).balances, env.factory, to, [coin]);
    forall d ensures AmountOf([coin], d) == Part(coin, d) {
      PartIsAmount(coin, d);
    }
  }

  // ---------------------------------------------------------------------------
  // Burning
  // ---------------------------------------------------------------------------

  predicate MayBurn(env: Env, st: State, sender: string, coin: Coin) {
    && IsAddress(env, sender) && !IsModule(env, sender) && ValidCoin(coin)
    && IsAdmin(st, coin.denom, sender) && IsFactoryDenom(env, coin.denom)
  }

  /** Without a hook, a burn goes through exactly when its checks pass and the
      sender has the coins; sender and supply lose them, the burn is recorded, and
      nothing else changes. */
  lemma PlainBurn(env: Env, w: World, sender: string, coin: Coin)
    requires env.Valid() && Balanced(w.st) && HookOf(w.st, coin.denom) == ""
    ensures HandleBurn(env, w, sender, coin).out.Succeeded? <==>
              && MayBurn(env, w.st, sender, coin)
              && coin.amount <= Balance(w.st.balances, env.codec.decode(sender).value, coin.denom)
    ensures HandleBurn(env, w, sender, coin).out.Succeeded? ==>
              var w' := HandleBurn(env, w, sender, coin).w;
              && w' == w.(st := w.st.(balances := w'.st.balances, supply := w'.st.supply,
                                      journal := w.st.journal + [Entry(sender, |w.st.journal|, Burned(coin))]))
              && Gains(w.st.balances, w'.st.balances, env.codec.decode(sender).value, coin.denom, -coin.amount)
              && SupplyGains(w.st, w'.st, coin.denom, -coin.amount)
  {
    BurnCompletes(env, w, sender, coin);
    if MayBurn(env, w.st, sender, coin) {
      var from := env.codec.decode(sender).value;
      UnhookedListener(env, w, Block, from, env.factory, [coin]);
      UnhookedListener(env, w, Track, from, env.factory, [coin]);
      assert SendCoins(env, w, from, env.factory, [coin]) == BaseSend(w, from, env.factory, [coin]);
      CoversOne(w.st.balances, from, coin);
      TransferEffect(w.st.balances, from, env.factory, [coin]);
      if Transfer(w.st.balances, from, env.factory, [coin]).Some? {
        var taken := Taken(env, w.st, from, coin);
        TakenIsBacked(env, w.st, from, coin);
        BurnCoinsPossible(env, taken, coin);
        BurnLoses(env, w.st, from, coin);
        BurnCoinsWithdraws(env, taken, coin);
      }
    }
  }

  lemma CoversOne(b: Balances, a: Address, coin: Coin)
    requires coin.amount > 0
    ensures Covers(b, a, [coin]) <==> coin.amount <= Balance(b, a, coin.denom)
  {
    forall d ensures AmountOf([coin], d) == Part(coin, d) {
      PartIsAmount(coin, d);
    }
    assert AmountOf([coin], coin.denom) == coin.amount;
  }

  lemma BurnLoses(env: Env, st: State, from: Address, coin: Coin)
    requires ValidCoin(coin) && from != env.factory
    requires Transfer(st.balances, from, env.factory, [coin]).Some?
    requires BurnCoins(env, Taken(env, st, from, coin), coin).Some?
    ensures Gains(st.balances, BurnCoins(env, Taken(env, st, from, coin), coin).value.balances,
                  from, coin.denom, -coin.amount)
  {
    TransferEffect(st.balances, from, env.factory, [coin]);
    SubCoinsEffect(Taken(env, st, from, coin).balances, env.factory, [coin]);
    forall d ensures AmountOf([coin], d) == Part(coin, d) {
      PartIsAmount(coin, d);
    }
  }
}
