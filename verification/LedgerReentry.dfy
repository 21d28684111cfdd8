/** The other half of the story of module LedgerCreation: whenever a coin of the fee
    does have a hook, contracts can sign for the creator, and a creation fits into a
    hook call, there are contracts that make a creation overwrite an admin, even one
    already renounced.
  */
module LedgerReentry {
  import opened Options
  import opened Denoms
  import opened Bank
  import opened Ledger
  import opened Chronicle
  import opened LedgerLaws
  import opened LedgerCreation

  // ---------------------------------------------------------------------------
  // Contracts that do nothing
  // ---------------------------------------------------------------------------

  const CALM := Reaction(1, [], Returns)
  const OBJECTION := Reaction(1, [], Errors(false))

  ghost predicate CalmBetween(env: Env, n: nat, m: nat) {
    forall k :: n <= k < m ==> env.react(k) == CALM
  }

  function HookedCount(st: State, coins: Coins): nat {
    if coins == [] then 0 else (if HookOf(st, coins[0].denom) != "" then 1 else 0) + HookedCount(st, coins[1..])
  }

  /** A call that does nothing costs one unit, or nothing if nothing is left. */
  lemma IdleCall(env: Env, w: World, kind: Kind, contract: string, from: Address, to: Address, coin: Coin)
    requires env.react(w.calls) == CALM || env.react(w.calls) == OBJECTION
    ensures var r := CallHook(env, w, kind, contract, from, to, coin);
            && r.w.st == w.st && r.w.calls == w.calls + 1 && r.w.meter == w.meter.Plus(Min(1, w.meter.Remaining()))
            && (r.out.Succeeded? <==> env.react(w.calls) == CALM && w.meter.Remaining() > 0)
  {
    var reaction := env.react(w.calls);
    var limit := Min(w.meter.Remaining(), HOOK_GAS_LIMIT);
    var child := w.(meter := Meter(limit, 0), calls := w.calls + 1, metered := Counted(w.metered, limit));
    var entered := child.(meter := child.meter.Plus(1));
    assert RunActs(env, entered, []) == Run(entered, Succeeded);
    assert RunContract(env, child, reaction).w == entered;
  }

  lemma {:induction false} CalmListener(env: Env, w: World, kind: Kind, from: Address, to: Address, coins: Coins)
    requires ValidHooks(env, BooksOf(w.st)) && w.meter.Remaining() >= HookedCount(w.st, coins)
    requires CalmBetween(env, w.calls, w.calls + HookedCount(w.st, coins))
    ensures var r := Listener(env, w, kind, from, to, coins);
            var n := HookedCount(w.st, coins);
            r.out.Succeeded? && r.w.st == w.st && r.w.calls == w.calls + n && r.w.meter == w.meter.Plus(n)
    decreases |coins|
  {
    if coins != [] {
      var contract := HookOf(w.st, coins[0].denom);
      if contract == "" {
        CalmListener(env, w, kind, from, to, coins[1..]);
      } else {
        IdleCall(env, w, kind, contract, from, to, coins[0]);
        CalmListener(env, CallHook(env, w, kind, contract, from, to, coins[0]).w, kind, from, to, coins[1..]);
      }
    }
  }

  /** If the first hook objects, the others are not asked. */
  lemma {:induction false} ObjectedListener(env: Env, w: World, kind: Kind, from: Address, to: Address, coins: Coins)
    requires ValidHooks(env, BooksOf(w.st)) && (HookedCount(w.st, coins) > 0 ==> env.react(w.calls) == OBJECTION)
    ensures var r := Listener(env, w, kind, from, to, coins);
            var n := if HookedCount(w.st, coins) > 0 then 1 else 0;
            r.w.st == w.st && r.w.calls == w.calls + n && r.w.meter == w.meter.Plus(Min(n, w.meter.Remaining()))
    decreases |coins|
  {
    if coins != [] {
      var contract := HookOf(w.st, coins[0].denom);
      if contract == "" {
        ObjectedListener(env, w, kind, from, to, coins[1..]);
      } else {
        IdleCall(env, w, kind, contract, from, to, coins[0]);
      }
    }
  }

  // ---------------------------------------------------------------------------
  // Creation at the least cost
  // ---------------------------------------------------------------------------

  ghost predicate CanPay(env: Env, st: State, payer: Address) {
    Transfer(st.balances, payer, env.feeCollector, st.params.fee).Some?
  }

  /** The state after the fee of a creation has been paid once. */
  function Paid(env: Env, st: State, payer: Address): State
    requires Transfer(st.balances, payer, env.feeCollector, st.params.fee).Some?
  {
    st.(balances := Transfer(st.balances, payer, env.feeCollector, st.params.fee).value)
  }

  function Recorded(st: State, paid: State, sender: string, denom: string): State {
    Noted(AddDenom(paid, sender, denom), sender, |st.journal|, Created(denom))
  }

  /** All hooks approve, and the first tracking hook objects. */
  lemma CheapPayment(env: Env, w: World, payer: Address)
    requires ValidHooks(env, BooksOf(w.st)) && !w.meter.Exhausted() && CanPay(env, w.st, payer)
    requires var n := HookedCount(w.st, w.st.params.fee);
             && CalmBetween(env, w.calls, w.calls + n)
             && (n > 0 ==> env.react(w.calls + n) == OBJECTION)
             && w.meter.Remaining() >= n + (if n > 0 && w.st.params.gas > 0 then 1 else 0) + w.st.params.gas
    ensures var n := HookedCount(w.st, w.st.params.fee);
            var r := ChargeForDenom(env, w, payer);
            && r.out.Succeeded? && r.w.st == Paid(env, w.st, payer)
            && r.w.calls == w.calls + n + (if n > 0 then 1 else 0)
  {
    var fee, to := w.st.params.fee, env.feeCollector;
    CalmListener(env, w, Block, payer, to, fee);
    var blocked := Listener(env, w, Block, payer, to, fee).w;
    ObjectedListener(env, blocked, Track, payer, to, fee);
    assert SendCoins(env, w, payer, to, fee).out.Succeeded?;
  }

  // ---------------------------------------------------------------------------
  // Removing hooks
  // ---------------------------------------------------------------------------

  /** A denom with a hook that some contract can remove. */
  predicate Removable(env: Env, b: Books, d: string) {
    BookHook(b, d) != "" && d in b.admins && CanSign(env, b.admins[d])
  }

  function Unhooks(env: Env, b: Books, coins: Coins): seq<Act> {
    if coins == [] then []
    else
      var d := coins[0].denom;
      (if Removable(env, b, d) then [Dispatch(SetBeforeSendHook(b.admins[d], d, ""))] else []) +
      Unhooks(env, b, coins[1..])
  }

  /** The state after that. */
  function Cleared(env: Env, b: Books, st: State, coins: Coins): State
    decreases |coins|
  {
    if coins == [] then st
    else
      var d := coins[0].denom;
      Cleared(env, b, if Removable(env, b, d) then AfterSetHook(st, b.admins[d], d, "") else st, coins[1..])
  }

  ghost predicate Named(coins: Coins, d: string) {
    exists k :: 0 <= k < |coins| && coins[k].denom == d
  }

  lemma {:induction false} ClearedEffect(env: Env, b: Books, st: State, coins: Coins)
    ensures var c := Cleared(env, b, st, coins);
            && c == st.(hooks := c.hooks, journal := c.journal)
            && (forall d :: d in c.hooks <==> d in st.hooks && !(Removable(env, b, d) && Named(coins, d)))
            && (forall d :: d in c.hooks ==> c.hooks[d] == st.hooks[d])
    decreases |coins|
  {
    if coins != [] {
      var first, rest := coins[0].denom, coins[1..];
      var st1 := if Removable(env, b, first) then AfterSetHook(st, b.admins[first], first, "") else st;
      ClearedEffect(env, b, st1, rest);
      forall d ensures Named(coins, d) <==> d == first || Named(rest, d) {
        NamedMore(coins, d);
      }
    }
  }

  lemma NamedMore(coins: Coins, d: string)
    requires coins != []
    ensures Named(coins, d) <==> d == coins[0].denom || Named(coins[1..], d)
  {
    if k :| 0 <= k < |coins[1..]| && coins[1..][k].denom == d {
      assert coins[k + 1].denom == d;
    }
    if k :| 0 <= k < |coins| && coins[k].denom == d {
      assert k > 0 ==> coins[1..][k - 1].denom == d;
    }
  }

  lemma RemovalWorks(env: Env, w: World, d: string)
    requires env.Valid() && d in w.st.admins && CanSign(env, w.st.admins[d]) && IsFactoryDenom(env, d)
    ensures var msg := SetBeforeSendHook(w.st.admins[d], d, "");
            && Signable(env, msg)
            && Deliver(env, w, msg) == Run(w.(st := AfterSetHook(w.st, w.st.admins[d], d, "")), Succeeded)
  {
    var admin := w.st.admins[d];
    assert HandleSetHook(env, w, admin, d, "") == Run(w.(st := AfterSetHook(w.st, admin, d, "")), Succeeded);
    assert Handle(env, w, SetBeforeSendHook(admin, d, "")) == HandleSetHook(env, w, admin, d, "");
  }

  lemma UnhookRuns(env: Env, w: World, d: string, rest: seq<Act>)
    requires env.Valid() && d in w.st.admins && CanSign(env, w.st.admins[d]) && IsFactoryDenom(env, d)
    ensures RunActs(env, w, [Dispatch(SetBeforeSendHook(w.st.admins[d], d, ""))] + rest) ==
            RunActs(env, w.(st := AfterSetHook(w.st, w.st.admins[d], d, "")), rest)
  {
    var acts := [Dispatch(SetBeforeSendHook(w.st.admins[d], d, ""))] + rest;
    RemovalWorks(env, w, d);
    assert acts[1..] == rest;
  }

  lemma UnhooksShape(env: Env, b: Books, coins: Coins, rest: seq<Act>)
    requires coins != []
    ensures var d := coins[0].denom;
            var others := Unhooks(env, b, coins[1..]) + rest;
            Unhooks(env, b, coins) + rest ==
              if Removable(env, b, d) then [Dispatch(SetBeforeSendHook(b.admins[d], d, ""))] + others else others
  {
    if Removable(env, b, coins[0].denom) {
      var first := [Dispatch(SetBeforeSendHook(b.admins[coins[0].denom], coins[0].denom, ""))];
      var more := Unhooks(env, b, coins[1..]);
      assert (first + more) + rest == first + (more + rest);
    } else {
      assert [] + Unhooks(env, b, coins[1..]) == Unhooks(env, b, coins[1..]);
    }
  }

  lemma {:induction false} UnhooksRun(env: Env, w: World, b: Books, coins: Coins, rest: seq<Act>)
    requires env.Valid() && w.st.admins == b.admins && forall d :: d in b.admins ==> IsFactoryDenom(env, d)
    ensures RunActs(env, w, Unhooks(env, b, coins) + rest) ==
            RunActs(env, w.(st := Cleared(env, b, w.st, coins)), rest)
    decreases |coins|
  {
    if coins == [] {
      assert Unhooks(env, b, coins) + rest == rest;
    } else {
      var d := coins[0].denom;
      UnhooksShape(env, b, coins, rest);
      if Removable(env, b, d) {
        UnhookRuns(env, w, d, Unhooks(env, b, coins[1..]) + rest);
        UnhooksRun(env, w.(st := AfterSetHook(w.st, b.admins[d], d, "")), b, coins[1..], rest);
      } else {
        UnhooksRun(env, w, b, coins[1..], rest);
      }
    }
  }

  /** What is left are the hooks that no contract can remove. */
  lemma StubbornOrRemovable(env: Env, st: State, d: string)
    requires env.Valid() && Indexed(env, st) && ValidHooks(env, BooksOf(st)) && HookOf(st, d) != ""
    ensures Stubborn(env, BooksOf(st), d) <==> !Removable(env, BooksOf(st), d)
  {
  }

  lemma {:induction false} CountCleared(env: Env, b: Books, c: State, coins: Coins)
    requires forall k :: 0 <= k < |coins| ==> (HookOf(c, coins[k].denom) != "" <==> Stubborn(env, b, coins[k].denom))
    ensures HookedCount(c, coins) == StubbornCount(env, b, coins)
    decreases |coins|
  {
    if coins != [] {
      assert HookOf(c, coins[0].denom) != "" <==> Stubborn(env, b, coins[0].denom);
      forall k | 0 <= k < |coins[1..]|
        ensures HookOf(c, coins[1..][k].denom) != "" <==> Stubborn(env, b, coins[1..][k].denom)
      {
        assert coins[1..][k] == coins[k + 1];
      }
      CountCleared(env, b, c, coins[1..]);
    }
  }

  /** The fee in a state whose removable fee hooks are gone: exactly the stubborn
      hooks are left. */
  ghost predicate OnlyStubborn(env: Env, b: Books, c: State, fee: Coins) {
    forall d :: Named(fee, d) ==> (HookOf(c, d) != "" <==> Stubborn(env, b, d))
  }

  lemma ClearedOnlyStubborn(env: Env, st: State)
    requires env.Valid() && Indexed(env, st) && ValidHooks(env, BooksOf(st))
    ensures OnlyStubborn(env, BooksOf(st), Cleared(env, BooksOf(st), st, st.params.fee), st.params.fee)
    ensures ValidHooks(env, BooksOf(Cleared(env, BooksOf(st), st, st.params.fee)))
  {
    var b, fee := BooksOf(st), st.params.fee;
    var c := Cleared(env, b, st, fee);
    ClearedEffect(env, b, st, fee);
    forall d | Named(fee, d) ensures HookOf(c, d) != "" <==> Stubborn(env, b, d) {
      if HookOf(st, d) != "" {
        StubbornOrRemovable(env, st, d);
      }
    }
  }

  lemma OnlyStubbornCount(env: Env, b: Books, c: State, fee: Coins)
    requires OnlyStubborn(env, b, c, fee)
    ensures HookedCount(c, fee) == StubbornCount(env, b, fee)
  {
    forall k | 0 <= k < |fee| ensures HookOf(c, fee[k].denom) != "" <==> Stubborn(env, b, fee[k].denom) {
      assert Named(fee, fee[k].denom);
    }
    CountCleared(env, b, c, fee);
  }

  // ---------------------------------------------------------------------------
  // A contract that interferes
  // ---------------------------------------------------------------------------

  /** On its first call: remove what hooks it can, create the same denom, and
      renounce it. */
  function Interference(env: Env, st: State, sender: string, subdenom: string, denom: string): Reaction {
    Reaction(1, Unhooks(env, BooksOf(st), st.params.fee) +
                [Dispatch(CreateDenom(sender, subdenom)), Dispatch(ChangeAdmin(sender, denom, ""))], Returns)
  }

  function Interfering(env: Env, st: State, at: nat, sender: string, subdenom: string, denom: string): nat -> Reaction {
    var objector := at + StubbornCount(env, BooksOf(st), st.params.fee) + 1;
    var interference := Interference(env, st, sender, subdenom, denom);
    (n: nat) => if n == at then interference else if n == objector then OBJECTION else CALM
  }

  /** The contracts are these, from call `at` on. */
  ghost predicate Staged(env: Env, st: State, at: nat, sender: string, subdenom: string, denom: string) {
    && env.react(at) == Interference(env, st, sender, subdenom, denom)
    && var objector := at + StubbornCount(env, BooksOf(st), st.params.fee) + 1;
       forall n :: n > at ==> env.react(n) == if n == objector then OBJECTION else CALM
  }

  /** All that the construction needs of a state and a message. */
  ghost predicate Setting(env: Env, st: State, sender: string, subdenom: string) {
    && env.Valid() && Indexed(env, st) && ValidHooks(env, BooksOf(st))
    && !IsModule(env, sender)
    && NewDenom(env, st, sender, subdenom).Some?
    && CanPay(env, st, env.codec.decode(sender).value)
    && CanPay(env, Paid(env, st, env.codec.decode(sender).value), env.codec.decode(sender).value)
  }

  /** What the interference leaves: the denom exists and its admin is renounced. */
  ghost predicate Left(env: Env, st: State, st': State, payer: Address, denom: string)
    requires CanPay(env, st, payer)
  {
    && st'.balances == Paid(env, st, payer).balances
    && st'.params == st.params
    && IsAdmin(st', denom, "")
    && ValidHooks(env, BooksOf(st'))
    && OnlyStubborn(env, BooksOf(st), st', st.params.fee)
  }

  /** The calls made inside the interference. */
  function CallsInside(env: Env, st: State): nat {
    var n := StubbornCount(env, BooksOf(st), st.params.fee);
    n + if n > 0 then 1 else 0
  }

  lemma RenouncingWorks(env: Env, w: World, sender: string, subdenom: string, denom: string)
    requires env.Valid() && !IsModule(env, sender) && IsAddress(env, sender)
    requires GetTokenDenom(sender, subdenom) == Good(denom) && IsAdmin(w.st, denom, sender)
    ensures var st' := Noted(w.st.(admins := w.st.admins[denom := ""]), sender, |w.st.journal|, AdminSet(denom, ""));
            Deliver(env, w, ChangeAdmin(sender, denom, "")) == Run(w.(st := st'), Succeeded)
  {
    BuildThenDeconstruct(env.codec, sender, subdenom);
    var st' := Noted(w.st.(admins := w.st.admins[denom := ""]), sender, |w.st.journal|, AdminSet(denom, ""));
    assert AfterChangeAdmin(env, w.st, sender, denom, "") == Some(st');
    assert Handle(env, w, ChangeAdmin(sender, denom, "")) == Run(w.(st := st'), Succeeded);
  }

  /** Creating and renouncing, after the hooks have been removed. */
  lemma CreateAndRenounce(env: Env, w: World, sender: string, subdenom: string, denom: string)
    requires env.Valid() && !IsModule(env, sender) && CanSign(env, sender)
    requires NewDenom(env, w.st, sender, subdenom) == Some(denom)
    requires ChargeForDenom(env, w, env.codec.decode(sender).value).out.Succeeded?
    ensures var paid := ChargeForDenom(env, w, env.codec.decode(sender).value).w;
            var st1 := Recorded(w.st, paid.st, sender, denom);
            var st2 := Noted(st1.(admins := st1.admins[denom := ""]), sender, |st1.journal|, AdminSet(denom, ""));
            RunActs(env, w, [Dispatch(CreateDenom(sender, subdenom)), Dispatch(ChangeAdmin(sender, denom, ""))]) ==
            Run(paid.(st := st2), Succeeded)
  {
    var create, renounce := CreateDenom(sender, subdenom), ChangeAdmin(sender, denom, "");
    var acts := [Dispatch(create), Dispatch(renounce)];
    var w1 := HandleCreateDenom(env, w, sender, subdenom).w;
    assert Handle(env, w, create) == Run(w1, Succeeded);
    assert Deliver(env, w, create) == Run(w1, Succeeded);
    RenouncingWorks(env, w1, sender, subdenom, denom);
    var w2 := Deliver(env, w1, renounce).w;
    assert acts[1..] == [Dispatch(renounce)] && acts[1..][1..] == [];
    assert RunActs(env, w2, []) == Run(w2, Succeeded);
    assert RunActs(env, w1, acts[1..]) == Run(w2, Succeeded);
  }

  /** The acts of the interfering contract, on the meter of its call. */
  lemma InterferenceRuns(env: Env, w: World, at: nat, sender: string, subdenom: string, denom: string)
    requires Setting(env, w.st, sender, subdenom) && NewDenom(env, w.st, sender, subdenom) == Some(denom)
    requires CanSign(env, sender) && Fits(env, BooksOf(w.st), w.st.params)
    requires Staged(env, w.st, at, sender, subdenom, denom) && w.calls == at + 1
    requires w.meter == Meter(HOOK_GAS_LIMIT, 1)
    ensures var r := RunActs(env, w, Interference(env, w.st, sender, subdenom, denom).acts);
            && r.out.Succeeded? && r.w.calls == w.calls + CallsInside(env, w.st)
            && Left(env, w.st, r.w.st, env.codec.decode(sender).value, denom)
  {
    var b, fee, payer := BooksOf(w.st), w.st.params.fee, env.codec.decode(sender).value;
    var acts := [Dispatch(CreateDenom(sender, subdenom)), Dispatch(ChangeAdmin(sender, denom, ""))];
    var w1 := w.(st := Cleared(env, b, w.st, fee));
    AdminsAreDenoms(env, w.st);
    UnhooksRun(env, w, b, fee, acts);
    ClearedEffect(env, b, w.st, fee);
    ClearedOnlyStubborn(env, w.st);
    OnlyStubbornCount(env, b, w1.st, fee);
    CheapPayment(env, w1, payer);
    CreateAndRenounce(env, w1, sender, subdenom, denom);
    LeftBehind(env, w.st, w1.st, RunActs(env, w1, acts).w.st, sender, payer, denom);
  }

  lemma AdminsAreDenoms(env: Env, st: State)
    requires Indexed(env, st)
    ensures forall d :: d in st.admins ==> IsFactoryDenom(env, d)
  {
    forall d | d in st.admins ensures IsFactoryDenom(env, d) {
      var p :| p in st.creators && p.1 == d;
      assert Attributed(env, p.0, p.1);
    }
  }

  lemma LeftBehind(env: Env, st: State, c: State, st': State, sender: string, payer: Address, denom: string)
    requires CanPay(env, st, payer)
    requires c == st.(hooks := c.hooks, journal := c.journal)
    requires ValidHooks(env, BooksOf(c)) && OnlyStubborn(env, BooksOf(st), c, st.params.fee)
    requires var st1 := Recorded(c, Paid(env, c, payer), sender, denom);
             st' == Noted(st1.(admins := st1.admins[denom := ""]), sender, |st1.journal|, AdminSet(denom, ""))
    ensures Left(env, st, st', payer, denom)
  {
    forall d ensures HookOf(st', d) == HookOf(c, d) {
    }
  }

  /** The call of the interfering contract. */
  lemma InterferenceCalled(env: Env, w: World, contract: string, from: Address, to: Address, coin: Coin,
                           sender: string, subdenom: string, denom: string)
    requires Setting(env, w.st, sender, subdenom) && NewDenom(env, w.st, sender, subdenom) == Some(denom)
    requires CanSign(env, sender) && Fits(env, BooksOf(w.st), w.st.params)
    requires Staged(env, w.st, w.calls, sender, subdenom, denom)
    requires w.meter.Remaining() >= HOOK_GAS_LIMIT
    ensures var r := CallHook(env, w, Block, contract, from, to, coin);
            && r.out.Succeeded? && r.w.calls == w.calls + 1 + CallsInside(env, w.st)
            && Left(env, w.st, r.w.st, env.codec.decode(sender).value, denom)
  {
    var child := w.(meter := Meter(HOOK_GAS_LIMIT, 1), calls := w.calls + 1, metered := w.metered + 1);
    InterferenceRuns(env, child, w.calls, sender, subdenom, denom);
  }

  /** After the interference, whatever hooks of the fee there are do nothing. */
  lemma RestIsCalm(env: Env, st: State, at: nat, st': State, coins: Coins, n: nat,
                   sender: string, subdenom: string, denom: string)
    requires Staged(env, st, at, sender, subdenom, denom) && n >= at + 1 + CallsInside(env, st)
    requires OnlyStubborn(env, BooksOf(st), st', st.params.fee)
    requires forall k :: 0 <= k < |coins| ==> Named(st.params.fee, coins[k].denom)
    ensures CalmBetween(env, n, n + HookedCount(st', coins))
  {
    if HookedCount(st', coins) > 0 {
      var d := SomeHooked(st', coins);
      StubbornIsCounted(env, BooksOf(st), st.params.fee, d);
    }
  }

  lemma {:induction false} SomeHooked(st: State, coins: Coins) returns (d: string)
    requires HookedCount(st, coins) > 0
    ensures Named(coins, d) && HookOf(st, d) != ""
    decreases |coins|
  {
    if HookOf(st, coins[0].denom) != "" {
      d := coins[0].denom;
    } else {
      d := SomeHooked(st, coins[1..]);
      NamedMore(coins, d);
    }
  }

  lemma {:induction false} StubbornIsCounted(env: Env, b: Books, coins: Coins, d: string)
    requires Named(coins, d) && Stubborn(env, b, d)
    ensures StubbornCount(env, b, coins) > 0
    decreases |coins|
  {
    NamedMore(coins, d);
    if coins[0].denom != d {
      StubbornIsCounted(env, b, coins[1..], d);
    }
  }

  lemma {:induction false} CountAtMost(st: State, coins: Coins)
    ensures HookedCount(st, coins) <= |coins|
    decreases |coins|
  {
    if coins != [] {
      CountAtMost(st, coins[1..]);
    }
  }

  lemma RestListens(env: Env, st: State, at: nat, w: World, kind: Kind, from: Address, to: Address, coins: Coins,
                    sender: string, subdenom: string, denom: string)
    requires Staged(env, st, at, sender, subdenom, denom) && w.calls >= at + 1 + CallsInside(env, st)
    requires ValidHooks(env, BooksOf(w.st)) && OnlyStubborn(env, BooksOf(st), w.st, st.params.fee)
    requires forall k :: 0 <= k < |coins| ==> Named(st.params.fee, coins[k].denom)
    requires w.meter.Remaining() >= |coins|
    ensures var r := Listener(env, w, kind, from, to, coins);
            && r.out.Succeeded? && r.w.st == w.st && r.w.calls >= w.calls
            && r.w.meter.limit == w.meter.limit && r.w.meter.consumed <= w.meter.consumed + |coins|
  {
    RestIsCalm(env, st, at, w.st, coins, w.calls, sender, subdenom, denom);
    CountAtMost(w.st, coins);
    CalmListener(env, w, kind, from, to, coins);
  }

  /** The blocking pass over the fee: the first hook interferes, the rest is calm. */
  lemma {:induction false} InterferenceListened(env: Env, w: World, from: Address, to: Address, coins: Coins,
                                                sender: string, subdenom: string, denom: string)
    requires Setting(env, w.st, sender, subdenom) && NewDenom(env, w.st, sender, subdenom) == Some(denom)
    requires CanSign(env, sender) && Fits(env, BooksOf(w.st), w.st.params)
    requires Staged(env, w.st, w.calls, sender, subdenom, denom)
    requires forall k :: 0 <= k < |coins| ==> Named(w.st.params.fee, coins[k].denom)
    requires !Unhooked(w.st, coins) && w.meter.Remaining() >= HOOK_GAS_LIMIT + |coins|
    ensures var r := Listener(env, w, Block, from, to, coins);
            && r.out.Succeeded? && r.w.calls >= w.calls + 1 + CallsInside(env, w.st)
            && Left(env, w.st, r.w.st, env.codec.decode(sender).value, denom)
    decreases |coins|
  {
    var contract := HookOf(w.st, coins[0].denom);
    if contract == "" {
      InterferenceListened(env, w, from, to, coins[1..], sender, subdenom, denom);
    } else {
      InterferenceCalled(env, w, contract, from, to, coins[0], sender, subdenom, denom);
      var r := CallHook(env, w, Block, contract, from, to, coins[0]);
      RestListens(env, w.st, w.calls, r.w, Block, from, to, coins[1..], sender, subdenom, denom);
    }
  }

  /** A creation that finds its denom recorded already. */
  ghost predicate Overwrites(env: Env, w: World, sender: string, subdenom: string) {
    && HandleCreateDenom(env, w, sender, subdenom).out.Succeeded?
    && NewDenom(env, w.st, sender, subdenom).value in AtRecording(env, w, sender).admins
  }

  /** With such a contract behind a hook of the fee, the fee is paid and the denom
      exists, renounced. */
  lemma InterferencePaid(env: Env, w: World, sender: string, subdenom: string, denom: string)
    requires Setting(env, w.st, sender, subdenom) && NewDenom(env, w.st, sender, subdenom) == Some(denom)
    requires CanSign(env, sender) && Fits(env, BooksOf(w.st), w.st.params)
    requires !Unhooked(w.st, w.st.params.fee)
    requires Staged(env, w.st, w.calls, sender, subdenom, denom)
    requires !w.meter.Exhausted() && w.meter.Remaining() >= (2 * |w.st.params.fee| + 2) * HOOK_GAS_LIMIT
    ensures var r := SendCoins(env, w, env.codec.decode(sender).value, env.feeCollector, w.st.params.fee);
            r.out.Succeeded? && IsAdmin(r.w.st, denom, "")
  {
    var payer, fee := env.codec.decode(sender).value, w.st.params.fee;
    assert forall k :: 0 <= k < |fee| ==> Named(fee, fee[k].denom);
    InterferenceListened(env, w, payer, env.feeCollector, fee, sender, subdenom, denom);
    var blocked := Listener(env, w, Block, payer, env.feeCollector, fee).w;
    RestListens(env, w.st, w.calls, blocked, Track, payer, env.feeCollector, fee, sender, subdenom, denom);
  }

  /** So the creation overwrites. */
  lemma InterferenceOverwrites(env: Env, w: World, sender: string, subdenom: string, denom: string)
    requires Setting(env, w.st, sender, subdenom) && NewDenom(env, w.st, sender, subdenom) == Some(denom)
    requires CanSign(env, sender) && Fits(env, BooksOf(w.st), w.st.params)
    requires !Unhooked(w.st, w.st.params.fee)
    requires Staged(env, w.st, w.calls, sender, subdenom, denom)
    requires !w.meter.Exhausted() && w.meter.Remaining() >= (2 * |w.st.params.fee| + 2) * HOOK_GAS_LIMIT
    ensures Overwrites(env, w, sender, subdenom)
    ensures IsAdmin(AtRecording(env, w, sender), denom, "")
    ensures IsAdmin(HandleCreateDenom(env, w, sender, subdenom).w.st, denom, sender)
  {
    var payer := env.codec.decode(sender).value;
    InterferencePaid(env, w, sender, subdenom, denom);
    assert ChargeForDenom(env, w, payer).out.Succeeded?;
  }

  // ---------------------------------------------------------------------------
  // The exact condition
  // ---------------------------------------------------------------------------

  /** Some contracts and some amount of gas make the creation overwrite. */
  ghost predicate CanBeOverwritten(env: Env, st: State, sender: string, subdenom: string) {
    exists react: nat -> Reaction, gas: nat ::
      Overwrites(env.(react := react), World(st, Meter(gas, 0), 0, 0, []), sender, subdenom)
  }

  /** What contracts can sign for does not depend on what they do. */
  lemma {:induction false} SameSigners(env: Env, react: nat -> Reaction, b: Books, coins: Coins)
    ensures StubbornCount(env.(react := react), b, coins) == StubbornCount(env, b, coins)
    ensures Unhooks(env.(react := react), b, coins) == Unhooks(env, b, coins)
    decreases |coins|
  {
    if coins != [] {
      SameSigners(env, react, b, coins[1..]);
    }
  }

  /** Given a payer who can pay twice: the creation of a denom can overwrite an admin
      if and only if a coin of the fee has a hook, contracts can sign for the
      creator, and a creation fits into a hook call. */
  lemma OverwritingIff(env: Env, st: State, sender: string, subdenom: string)
    requires Setting(env, st, sender, subdenom)
    ensures CanBeOverwritten(env, st, sender, subdenom) <==>
              !Unhooked(st, st.params.fee) && CanSign(env, sender) && Fits(env, BooksOf(st), st.params)
  {
    if !Unhooked(st, st.params.fee) && CanSign(env, sender) && Fits(env, BooksOf(st), st.params) {
      ItCanHappen(env, st, sender, subdenom);
    } else {
      forall react: nat -> Reaction, gas: nat
        ensures !Overwrites(env.(react := react), World(st, Meter(gas, 0), 0, 0, []), sender, subdenom)
      {
        ItCannotHappen(env, st, sender, subdenom, react, gas);
      }
    }
  }

  lemma ItCanHappen(env: Env, st: State, sender: string, subdenom: string)
    requires Setting(env, st, sender, subdenom)
    requires !Unhooked(st, st.params.fee) && CanSign(env, sender) && Fits(env, BooksOf(st), st.params)
    ensures CanBeOverwritten(env, st, sender, subdenom)
  {
    var denom := NewDenom(env, st, sender, subdenom).value;
    var react := Interfering(env, st, 0, sender, subdenom, denom);
    var gas := (2 * |st.params.fee| + 2) * HOOK_GAS_LIMIT;
    InterferingIsStaged(env, st, sender, subdenom, denom);
    SameSigners(env, react, BooksOf(st), st.params.fee);
    InterferenceOverwrites(env.(react := react), World(st, Meter(gas, 0), 0, 0, []), sender, subdenom, denom);
  }

  lemma ItCannotHappen(env: Env, st: State, sender: string, subdenom: string, react: nat -> Reaction, gas: nat)
    requires Setting(env, st, sender, subdenom)
    requires Unhooked(st, st.params.fee) || !CanSign(env, sender) || !Fits(env, BooksOf(st), st.params)
    ensures !Overwrites(env.(react := react), World(st, Meter(gas, 0), 0, 0, []), sender, subdenom)
  {
    var env', w := env.(react := react), World(st, Meter(gas, 0), 0, 0, []);
    SameSigners(env, react, BooksOf(st), st.params.fee);
    if HandleCreateDenom(env', w, sender, subdenom).out.Succeeded? {
      CreationIsFresh(env', w, sender, subdenom);
    }
  }

  // ---------------------------------------------------------------------------
  // A concrete case
  // ---------------------------------------------------------------------------

  const FEE_DENOM := "factory/x/fee"
  const NEW_DENOM := "factory/x/new"

  /** Contract `x` has a denom whose sends it watches itself, and that denom is the
      fee for creating denoms; creation takes no gas. */
  function ExampleState(): State {
    State(map[("x", FEE_DENOM) := 2], map[FEE_DENOM := 2], map[FEE_DENOM := DefaultMetadata(FEE_DENOM)],
          map[FEE_DENOM := "x"], {("x", FEE_DENOM)}, map[FEE_DENOM := "x"],
          Params([Coin(FEE_DENOM, 1)], 0), [])
  }

  function PlainCodec(): Codec {
    Codec((s: string) => if s == "" then None else Some(s), (a: Address) => a)
  }

  /** Contracts sign for themselves; `x` is the only one. */
  function ExampleEnv(react: nat -> Reaction): Env {
    Env(PlainCodec(), "factory account", "fee collector", {"factory account", "fee collector"},
        (d: string) => true, (m: Metadata) => true, "gov", (a: Address) => a == "x", react)
  }

  lemma ExampleDenoms()
    ensures FactoryDenom("x", "new") == NEW_DENOM && FactoryDenom("x", "fee") == FEE_DENOM
  {
    FactoryDenomShape("x", "new");
    assert "x" + "/" + "new" == "x/new";
    assert "factory" + "/" + "x/new" == NEW_DENOM;
    FactoryDenomShape("x", "fee");
    assert "x" + "/" + "fee" == "x/fee";
    assert "factory" + "/" + "x/fee" == FEE_DENOM;
  }

  lemma ExampleName()
    ensures GetTokenDenom("x", "new") == Good(NEW_DENOM)
  {
    ExampleDenoms();
  }

  lemma ExampleFee()
    ensures ValidDenom(FEE_DENOM) && DeconstructDenom(PlainCodec(), FEE_DENOM) == Good(("x", "fee"))
  {
    ExampleDenoms();
    assert ValidDenom(FEE_DENOM);
    DeconstructExactly(PlainCodec(), FEE_DENOM, "x", "fee");
  }

  /** One denom, with its creator, its admin and its hook. */
  lemma OneDenom(env: Env, st: State, creator: string, d: string)
    requires Attributed(env, creator, d)
    requires st.creators == {(creator, d)} && st.admins == map[d := creator] && st.hooks == map[d := creator]
    requires d in st.metadata
    ensures Indexed(env, st) && ValidHooks(env, BooksOf(st))
  {
    assert Listed(st.creators) == {d};
  }

  lemma ExampleIndexed(env: Env)
    requires env.codec == PlainCodec()
    ensures Indexed(env, ExampleState()) && ValidHooks(env, BooksOf(ExampleState()))
  {
    ExampleFee();
    OneDenom(env, ExampleState(), "x", FEE_DENOM);
  }

  lemma ExamplePayments(env: Env)
    requires env.feeCollector == "fee collector"
    ensures var st := ExampleState();
            CanPay(env, st, "x") && CanPay(env, Paid(env, st, "x"), "x")
  {
    ExampleFee();
    var st := ExampleState();
    var fee := [Coin(FEE_DENOM, 1)];
    forall d
      ensures AmountOf(fee, d) == if d == FEE_DENOM then 1 else 0
    {
      PartIsAmount(fee[0], d);
    }
    TransferEffect(st.balances, "x", "fee collector", fee);
    var paid := Paid(env, st, "x");
    TransferEffect(paid.balances, "x", "fee collector", fee);
    assert Balance(paid.balances, "x", FEE_DENOM) == 1;
  }

  function ExampleReact(): nat -> Reaction {
    Interfering(ExampleEnv((n: nat) => CALM), ExampleState(), 0, "x", "new", NEW_DENOM)
  }

  lemma ExampleValid(react: nat -> Reaction)
    ensures ExampleEnv(react).Valid()
  {
  }

  lemma ExampleSetting(react: nat -> Reaction)
    ensures Setting(ExampleEnv(react), ExampleState(), "x", "new")
    ensures NewDenom(ExampleEnv(react), ExampleState(), "x", "new") == Some(NEW_DENOM)
  {
    var env := ExampleEnv(react);
    ExampleValid(react);
    ExampleName();
    ExampleIndexed(env);
    ExamplePayments(env);
  }

  lemma ExampleFits(env: Env)
    requires env.codec == PlainCodec() && env.delegates("x")
    ensures Fits(env, BooksOf(ExampleState()), ExampleState().params)
  {
    var b, fee := BooksOf(ExampleState()), [Coin(FEE_DENOM, 1)];
    assert !Stubborn(env, b, FEE_DENOM);
    assert StubbornCount(env, b, fee[1..]) == 0;
    assert StubbornCount(env, b, fee) == 0;
  }

  lemma InterferingIsStaged(env: Env, st: State, sender: string, subdenom: string, denom: string)
    ensures Staged(env.(react := Interfering(env, st, 0, sender, subdenom, denom)), st, 0, sender, subdenom, denom)
  {
    SameSigners(env, Interfering(env, st, 0, sender, subdenom, denom), BooksOf(st), st.params.fee);
  }

  /** In this state, a creation by `x` overwrites the admin that was renounced while
      the fee was being paid. */
  lemma OverwriteExample()
    ensures var env, w := ExampleEnv(ExampleReact()), World(ExampleState(), Meter(2_000_000, 0), 0, 0, []);
            && Overwrites(env, w, "x", "new")
            && IsAdmin(AtRecording(env, w, "x"), NEW_DENOM, "")
            && IsAdmin(HandleCreateDenom(env, w, "x", "new").w.st, NEW_DENOM, "x")
  {
    var env, w := ExampleEnv(ExampleReact()), World(ExampleState(), Meter(2_000_000, 0), 0, 0, []);
    ExampleSetting(ExampleReact());
    ExampleFits(env);
    InterferingIsStaged(ExampleEnv((n: nat) => CALM), w.st, "x", "new", NEW_DENOM);
    assert w.st.params.fee[0].denom == FEE_DENOM && HookOf(w.st, FEE_DENOM) == "x";
    InterferenceOverwrites(env, w, "x", "new", NEW_DENOM);
  }
}
