/** What every message keeps, with everything that hooks do inside it: supplies are
    backed by balances and move only by mints and burns, the factory's module
    account is left as it was found, creators and admins stay in agreement, and
    nobody touches a denom without its admin.

    All of it is one induction over the nest of calls. `Evolves` relates the states
    before and after anything a contract can cause; it is reflexive and transitive,
    so that each handler only accounts for its own steps.
  */
module LedgerLaws {
  import opened Options
  import opened Denoms
  import opened Bank
  import opened Ledger
  import opened Chronicle

  // ---------------------------------------------------------------------------
  // Conservation
  // ---------------------------------------------------------------------------

  /** The balances of each denom add up to its supply. */
  ghost predicate Balanced(st: State) {
    forall d :: Sum(st.balances, d) == SupplyOf(st, d)
  }

  /** What a deed adds to the supply of a denom. */
  function NetOf(deed: Deed, d: string): int {
    match deed
    case Minted(coin) => Part(coin, d)
    case Burned(coin) => -Part(coin, d)
    case _ => 0
  }

  /** What a coin is worth in a denom. */
  function Part(coin: Coin, d: string): int {
    if coin.denom == d then coin.amount else 0
  }

  /** Mints minus burns of a denom in a journal. */
  function Net(journal: seq<Entry>, d: string): int
    decreases |journal|
  {
    if journal == [] then 0
    else
      var last := journal[|journal| - 1];
      Net(journal[..|journal| - 1], d) + NetOf(last.deed, d)
  }

  /** The journal is only added to, and supplies change by exactly what it gains. */
  ghost predicate Accounted(st: State, st': State) {
    && st.journal <= st'.journal
    && forall d :: SupplyOf(st', d) - SupplyOf(st, d) == Net(st'.journal, d) - Net(st.journal, d)
  }

  ghost predicate Conserves(st: State, st': State) {
    (Balanced(st) ==> Balanced(st')) && Accounted(st, st')
  }

  // ---------------------------------------------------------------------------
  // The transit account
  // ---------------------------------------------------------------------------

  ghost predicate FactoryKept(env: Env, st: State, st': State) {
    forall d :: Balance(st'.balances, env.factory, d) == Balance(st.balances, env.factory, d)
  }

  // ---------------------------------------------------------------------------
  // The index of creators
  // ---------------------------------------------------------------------------

  /** The denoms listed under some creator. */
  function Listed(creators: set<(string, string)>): set<string> {
    set p | p in creators :: p.1
  }

  ghost predicate OneCreator(creators: set<(string, string)>) {
    forall p, q :: p in creators && q in creators && p.1 == q.1 ==> p == q
  }

  /** The creator under whom a denom is listed is the one in its name. */
  ghost predicate Attributed(env: Env, c: string, d: string) {
    && env.codec.decode(c).Some?
    && IsFactoryDenom(env, d)
    && DeconstructDenom(env.codec, d).value.0 == env.codec.Canonical(c)
  }

  /** Creator index and admin map list the same denoms, each under one creator,
      with bank metadata and with an admin that is an address or empty. */
  ghost predicate Indexed(env: Env, st: State) {
    && st.admins.Keys == Listed(st.creators)
    && OneCreator(st.creators)
    && AllAttributed(env, st.creators)
    && AllAdministered(env, st.admins, st.metadata)
  }

  ghost predicate AllAdministered(env: Env, admins: map<string, string>, metadata: map<string, Metadata>) {
    forall d :: d in admins ==> d in metadata && ValidAdmin(env, admins[d])
  }

  ghost predicate AllAttributed(env: Env, creators: set<(string, string)>) {
    forall p :: p in creators ==> Attributed(env, p.0, p.1)
  }

  /** Index entries are only added, and only for denoms built from their creator;
      what gets metadata has an admin. */
  ghost predicate IndexGrows(st: State, st': State) {
    && st.creators <= st'.creators
    && st.admins.Keys <= st'.admins.Keys
    && (forall p :: p in st'.creators && p !in st.creators ==> BuiltFrom(p.0, p.1))
    && (forall d :: d in st'.metadata && d !in st.metadata ==> d in st'.admins)
  }

  ghost predicate Indexes(env: Env, st: State, st': State) {
    (Indexed(env, st) ==> Indexed(env, st')) && IndexGrows(st, st')
  }

  // ---------------------------------------------------------------------------
  // All together
  // ---------------------------------------------------------------------------

  ghost predicate Sound(env: Env, st: State, st': State) {
    Conserves(st, st') && FactoryKept(env, st, st') && Indexes(env, st, st') && st'.params == st.params
  }

  /** What holds of any two states of which one came from the other. */
  ghost predicate Evolves(env: Env, st: State, st': State, signers: set<string>) {
    Sound(env, st, st') && Follows(env, st, st', signers)
  }

  lemma SoundReflexive(env: Env, st: State)
    ensures Sound(env, st, st)
  {
  }

  lemma EvolvesReflexive(env: Env, st: State, signers: set<string>)
    ensures Evolves(env, st, st, signers)
  {
    SoundReflexive(env, st);
    FollowsReflexive(env, st, signers);
  }

  lemma SoundTransitive(env: Env, a: State, b: State, c: State)
    requires Sound(env, a, b) && Sound(env, b, c)
    ensures Sound(env, a, c)
  {
  }

  lemma EvolvesTransitive(env: Env, a: State, b: State, c: State, signers: set<string>)
    requires Evolves(env, a, b, signers) && Evolves(env, b, c, signers)
    ensures Evolves(env, a, c, signers)
  {
    SoundTransitive(env, a, b, c);
    FollowsTransitive(env, a, b, c, signers);
  }

  /** Books and journal are all that following depends on. */
  lemma FollowsAlike(env: Env, a: State, b: State, c: State, d: State, signers: set<string>)
    requires BooksOf(a) == BooksOf(b) && a.journal == b.journal
    requires BooksOf(c) == BooksOf(d) && c.journal == d.journal
    requires Follows(env, b, c, signers)
    ensures Follows(env, a, d, signers)
  {
  }

  // ---------------------------------------------------------------------------
  // The steps that handlers take themselves
  // ---------------------------------------------------------------------------

  /** New balances with the same sums and the same account of the factory. */
  ghost predicate Rearranged(env: Env, b: Balances, b': Balances) {
    forall d :: Sum(b', d) == Sum(b, d) && Balance(b', env.factory, d) == Balance(b, env.factory, d)
  }

  lemma RearrangedEvolves(env: Env, st: State, b: Balances, signers: set<string>)
    requires Rearranged(env, st.balances, b)
    ensures Evolves(env, st, st.(balances := b), signers)
  {
    var st' := st.(balances := b);
    SameBooksIndexed(env, st, st');
    FollowsReflexive(env, st, signers);
    FollowsAlike(env, st, st, st, st', signers);
    if Balanced(st) {
      forall d
        ensures Sum(st'.balances, d) == SupplyOf(st', d)
      {
        assert Sum(st.balances, d) == SupplyOf(st, d);
      }
    }
  }

  lemma TransferRearranges(env: Env, b: Balances, from: Address, to: Address, coins: Coins)
    requires Transfer(b, from, to, coins).Some?
    requires from != env.factory && to != env.factory
    ensures Rearranged(env, b, Transfer(b, from, to, coins).value)
  {
    var b' := Transfer(b, from, to, coins).value;
    TransferEffect(b, from, to, coins);
    forall d
      ensures Sum(b', d) == Sum(b, d) && Balance(b', env.factory, d) == Balance(b, env.factory, d)
    {
      TransferSum(b, from, to, coins, d);
    }
  }

  lemma {:induction false} NoneReceives(codec: Codec, outputs: seq<Party>, a: Address, d: string)
    requires forall k :: 0 <= k < |outputs| ==> codec.decode(outputs[k].address) != Some(a)
    ensures Receives(codec, outputs, a, d) == 0
    decreases |outputs|
  {
    if outputs != [] {
      NoneReceives(codec, outputs[1..], a, d);
    }
  }

  lemma DistributeRearranges(env: Env, b: Balances, input: Party, outputs: seq<Party>)
    requires Distribute(env.codec, b, input, outputs).Some?
    requires env.codec.decode(input.address) != Some(env.factory)
    requires forall k :: 0 <= k < |outputs| ==> env.codec.decode(outputs[k].address) != Some(env.factory)
    ensures Rearranged(env, b, Distribute(env.codec, b, input, outputs).value)
  {
    var b' := Distribute(env.codec, b, input, outputs).value;
    DistributeEffect(env.codec, b, input, outputs);
    forall d
      ensures Sum(b', d) == Sum(b, d) && Balance(b', env.factory, d) == Balance(b, env.factory, d)
    {
      DistributeSum(env.codec, b, input, outputs, d);
      NoneReceives(env.codec, outputs, env.factory, d);
    }
  }

  lemma NetOfRecord(journal: seq<Entry>, entry: Entry, d: string)
    ensures Net(journal + [entry], d) == Net(journal, d) + NetOf(entry.deed, d)
  {
    assert (journal + [entry])[..|journal|] == journal;
  }

  lemma PartIsAmount(coin: Coin, d: string)
    ensures AmountOf([coin], d) == Part(coin, d)
  {
  }

  /** Sum, supply and the factory's account each grow by `coin`, journal and index
      stay. */
  ghost predicate Issued(env: Env, st: State, st': State, coin: Coin) {
    && (forall d :: Sum(st'.balances, d) == Sum(st.balances, d) + Part(coin, d))
    && (forall d :: SupplyOf(st', d) == SupplyOf(st, d) + Part(coin, d))
    && (forall d :: Balance(st'.balances, env.factory, d) == Balance(st.balances, env.factory, d) + Part(coin, d))
    && st'.journal == st.journal && st'.creators == st.creators && st'.params == st.params
    && st'.admins == st.admins && st'.metadata == st.metadata && st'.hooks == st.hooks
  }

  /** The factory's account shrinks by `coin`, and nothing else but balances changes. */
  ghost predicate HandedOut(env: Env, st: State, st': State, coin: Coin) {
    && (forall d :: Sum(st'.balances, d) == Sum(st.balances, d))
    && (forall d :: Balance(st'.balances, env.factory, d) == Balance(st.balances, env.factory, d) - Part(coin, d))
    && st' == st.(balances := st'.balances)
  }

  lemma MintCoinsIssues(env: Env, st: State, coin: Coin)
    requires coin.amount > 0
    ensures Issued(env, st, MintCoins(env, st, coin), coin)
  {
    var st' := MintCoins(env, st, coin);
    AddCoinsEffect(st.balances, env.factory, [coin]);
    forall d
      ensures Sum(st'.balances, d) == Sum(st.balances, d) + Part(coin, d)
      ensures Balance(st'.balances, env.factory, d) == Balance(st.balances, env.factory, d) + Part(coin, d)
    {
      AddCoinsSum(st.balances, env.factory, [coin], d);
      PartIsAmount(coin, d);
    }
  }

  /** Burning is minting read backwards. */
  lemma BurnCoinsWithdraws(env: Env, st: State, coin: Coin)
    requires coin.amount > 0 && BurnCoins(env, st, coin).Some?
    ensures Issued(env, BurnCoins(env, st, coin).value, st, coin)
  {
    var st' := BurnCoins(env, st, coin).value;
    SubCoinsEffect(st.balances, env.factory, [coin]);
    forall d
      ensures Sum(st.balances, d) == Sum(st'.balances, d) + Part(coin, d)
      ensures Balance(st.balances, env.factory, d) == Balance(st'.balances, env.factory, d) + Part(coin, d)
    {
      SubCoinsSum(st.balances, env.factory, [coin], d);
      PartIsAmount(coin, d);
    }
  }

  lemma TransferHandsOut(env: Env, st: State, other: Address, coin: Coin)
    requires other != env.factory
    ensures Transfer(st.balances, env.factory, other, [coin]).Some? ==>
              HandedOut(env, st, st.(balances := Transfer(st.balances, env.factory, other, [coin]).value), coin)
    ensures Transfer(st.balances, other, env.factory, [coin]).Some? ==>
              HandedOut(env, st.(balances := Transfer(st.balances, other, env.factory, [coin]).value), st, coin)
  {
    TransferEffect(st.balances, env.factory, other, [coin]);
    TransferEffect(st.balances, other, env.factory, [coin]);
    forall d
      ensures AmountOf([coin], d) == Part(coin, d)
    {
      PartIsAmount(coin, d);
    }
    if Transfer(st.balances, env.factory, other, [coin]).Some? {
      forall d {
        TransferSum(st.balances, env.factory, other, [coin], d);
      }
    }
    if Transfer(st.balances, other, env.factory, [coin]).Some? {
      forall d {
        TransferSum(st.balances, other, env.factory, [coin], d);
      }
    }
  }

  /** Index, admins and metadata are the same. */
  ghost predicate SameBooks(st: State, st': State) {
    st'.creators == st.creators && st'.admins == st.admins && st'.metadata == st.metadata
  }

  lemma SameBooksIndexed(env: Env, st: State, st': State)
    requires SameBooks(st, st')
    ensures Indexed(env, st) <==> Indexed(env, st')
  {
  }

  lemma IndexesAround(env: Env, st: State, a: State, b: State, st': State)
    requires SameBooks(st, a) && Indexes(env, a, b) && SameBooks(b, st')
    ensures Indexes(env, st, st')
  {
    SameBooksIndexed(env, st, a);
    SameBooksIndexed(env, b, st');
  }

  /** Backing through a mint: minted, evolved, handed out. */
  lemma MintBalanced(env: Env, st: State, minted: State, mid: State, sent: State, coin: Coin)
    requires Issued(env, st, minted, coin) && HandedOut(env, mid, sent, coin)
    requires Balanced(st) && (Balanced(minted) ==> Balanced(mid))
    ensures Balanced(sent)
  {
    forall d ensures Sum(minted.balances, d) == SupplyOf(minted, d) {
      assert Sum(st.balances, d) == SupplyOf(st, d);
    }
    forall d ensures Sum(sent.balances, d) == SupplyOf(sent, d) {
      assert Sum(mid.balances, d) == SupplyOf(mid, d);
    }
  }

  lemma MintAccounted(env: Env, st: State, minted: State, mid: State, sent: State, e: Entry)
    requires e.deed.Minted?
    requires Issued(env, st, minted, e.deed.coin) && Accounted(minted, mid) && HandedOut(env, mid, sent, e.deed.coin)
    ensures Accounted(st, sent.(journal := sent.journal + [e]))
  {
    var st' := sent.(journal := sent.journal + [e]);
    forall d
      ensures SupplyOf(st', d) - SupplyOf(st, d) == Net(st'.journal, d) - Net(st.journal, d)
    {
      NetOfRecord(mid.journal, e, d);
      assert SupplyOf(mid, d) - SupplyOf(minted, d) == Net(mid.journal, d) - Net(minted.journal, d);
    }
  }

  lemma BurnBalanced(env: Env, mid: State, taken: State, burned: State, coin: Coin)
    requires Balanced(mid) && HandedOut(env, taken, mid, coin) && Issued(env, burned, taken, coin)
    ensures Balanced(burned)
  {
    forall d ensures Sum(burned.balances, d) == SupplyOf(burned, d) {
      assert Sum(mid.balances, d) == SupplyOf(mid, d);
    }
  }

  lemma BurnAccounted(env: Env, st: State, mid: State, taken: State, burned: State, e: Entry)
    requires e.deed.Burned?
    requires Accounted(st, mid) && HandedOut(env, taken, mid, e.deed.coin) && Issued(env, burned, taken, e.deed.coin)
    ensures Accounted(st, burned.(journal := burned.journal + [e]))
  {
    var st' := burned.(journal := burned.journal + [e]);
    forall d
      ensures SupplyOf(st', d) - SupplyOf(st, d) == Net(st'.journal, d) - Net(st.journal, d)
    {
      NetOfRecord(burned.journal, e, d);
      assert SupplyOf(mid, d) - SupplyOf(st, d) == Net(mid.journal, d) - Net(st.journal, d);
    }
  }

  /** Minting, and handing out what was minted, around anything in between. */
  lemma MintSound(env: Env, st: State, minted: State, mid: State, sent: State, e: Entry)
    requires e.deed.Minted?
    requires Issued(env, st, minted, e.deed.coin)
    requires Sound(env, minted, mid)
    requires HandedOut(env, mid, sent, e.deed.coin)
    ensures Sound(env, st, sent.(journal := sent.journal + [e]))
  {
    var st' := sent.(journal := sent.journal + [e]);
    if Balanced(st) {
      MintBalanced(env, st, minted, mid, sent, e.deed.coin);
      assert forall d :: Sum(st'.balances, d) == Sum(sent.balances, d) && SupplyOf(st', d) == SupplyOf(sent, d);
    }
    MintAccounted(env, st, minted, mid, sent, e);
    IndexesAround(env, st, minted, mid, st');
  }

  /** Taking coins in, and burning them, after anything before. */
  lemma BurnSound(env: Env, st: State, mid: State, taken: State, burned: State, e: Entry)
    requires e.deed.Burned?
    requires Sound(env, st, mid)
    requires HandedOut(env, taken, mid, e.deed.coin)
    requires Issued(env, burned, taken, e.deed.coin)
    ensures Sound(env, st, burned.(journal := burned.journal + [e]))
  {
    var st' := burned.(journal := burned.journal + [e]);
    if Balanced(st) {
      BurnBalanced(env, mid, taken, burned, e.deed.coin);
      assert forall d :: Sum(st'.balances, d) == Sum(burned.balances, d) && SupplyOf(st', d) == SupplyOf(burned, d);
    }
    BurnAccounted(env, st, mid, taken, burned, e);
    IndexesAround(env, st, st, mid, st');
  }
}
