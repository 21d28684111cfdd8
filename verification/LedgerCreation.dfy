/** Creation of denoms under re-entrancy.

    A denom's name is checked to be free before the creation fee is paid, and the
    denom is recorded after. If a coin of the fee has a hook, contracts run in
    between, and one of them may create the very same denom. Whoever is its admin
    by then is overwritten. The theorems say when this cannot happen: when no coin
    of the fee has a hook, when no contract can sign for the creator, or when a
    creation does not fit into the gas of a hook call. (By default it takes twice as
    much gas.)
  */
module LedgerCreation {
  import opened Denoms
  import opened Bank
  import opened Ledger
  import opened Chronicle
  import opened LedgerLaws
  import opened LedgerNest

  // ---------------------------------------------------------------------------
  // What a creation inside a hook call costs
  // ---------------------------------------------------------------------------

  /** A denom with a hook that no contract can remove. */
  predicate Stubborn(env: Env, b: Books, d: string) {
    BookHook(b, d) != "" && OutOfReach(env, b, {}, d)
  }

  function StubbornCount(env: Env, b: Books, coins: Coins): nat {
    if coins == [] then 0
    else (if Stubborn(env, b, coins[0].denom) then 1 else 0) + StubbornCount(env, b, coins[1..])
  }

  /** The least gas that a creation takes: at least one unit for each hook that
      cannot be removed, in the blocking pass; one more for the tracking pass, which
      stops at its first error, unless the meter is empty by then and nothing more
      is due; and the creation gas itself. */
  function LeastGas(env: Env, b: Books, params: Params): nat {
    var stubborn := StubbornCount(env, b, params.fee);
    stubborn + (if stubborn > 0 && params.gas > 0 then 1 else 0) + params.gas
  }

  /** Does a creation fit into a hook call, which takes one unit to enter? */
  predicate Fits(env: Env, b: Books, params: Params) {
    1 + LeastGas(env, b, params) <= HOOK_GAS_LIMIT
  }

  /** It does not if the creation gas reaches the limit of hooks, as by default. */
  lemma CostlyDoesNotFit(env: Env, b: Books, params: Params)
    requires params.gas >= HOOK_GAS_LIMIT
    ensures !Fits(env, b, params)
  {
  }

  lemma StubbornStays(env: Env, st: State, st': State, d: string)
    requires Follows(env, st, st', {}) && Stubborn(env, BooksOf(st), d)
    ensures Stubborn(env, BooksOf(st'), d)
  {
    OutOfReachStays(env, st, st', {}, d);
  }

  lemma {:induction false} CountGrows(env: Env, st: State, st': State, coins: Coins)
    requires Follows(env, st, st', {})
    ensures StubbornCount(env, BooksOf(st), coins) <= StubbornCount(env, BooksOf(st'), coins)
    decreases |coins|
  {
    if coins != [] {
      CountGrows(env, st, st', coins[1..]);
      if Stubborn(env, BooksOf(st), coins[0].denom) {
        StubbornStays(env, st, st', coins[0].denom);
      }
    }
  }

  /** A call on a meter with gas left costs something, however it ends; and a call
      that succeeds had gas left. */
  lemma CallCosts(env: Env, w: World, kind: Kind, contract: string, from: Address, to: Address, coin: Coin)
    ensures var r := CallHook(env, w, kind, contract, from, to, coin);
            w.meter.Remaining() > 0 || r.out.Succeeded? ==> w.meter.consumed < r.w.meter.consumed
  {
  }

  /** Each hook that cannot be removed costs the blocking pass at least one unit. */
  lemma {:induction false} PassCosts(env: Env, w: World, kind: Kind, from: Address, to: Address, coins: Coins)
    requires env.Valid()
    ensures var r := Listener(env, w, kind, from, to, coins);
            r.out.Succeeded? ==>
              w.meter.consumed + StubbornCount(env, BooksOf(w.st), coins) <= r.w.meter.consumed
    decreases |coins|
  {
    if coins != [] {
      var contract := HookOf(w.st, coins[0].denom);
      if contract == "" {
        PassCosts(env, w, kind, from, to, coins[1..]);
      } else if env.codec.decode(contract).Some? {
        var r := CallHook(env, w, kind, contract, from, to, coins[0]);
        CallCosts(env, w, kind, contract, from, to, coins[0]);
        HookEvolves(env, w, kind, contract, from, to, coins[0]);
        CountGrows(env, w.st, r.w.st, coins[1..]);
        if r.out.Succeeded? {
          PassCosts(env, r.w, kind, from, to, coins[1..]);
        }
      }
    }
  }

  /** If there is such a hook, and gas, any pass costs something. */
  lemma {:induction false} AnyPassCosts(env: Env, w: World, kind: Kind, from: Address, to: Address, coins: Coins)
    requires env.Valid() && ValidHooks(env, BooksOf(w.st))
    requires StubbornCount(env, BooksOf(w.st), coins) > 0 && w.meter.Remaining() > 0
    ensures w.meter.consumed < Listener(env, w, kind, from, to, coins).w.meter.consumed
    decreases |coins|
  {
    var contract := HookOf(w.st, coins[0].denom);
    if contract == "" {
      AnyPassCosts(env, w, kind, from, to, coins[1..]);
    } else {
      CallCosts(env, w, kind, contract, from, to, coins[0]);
    }
  }

  /** Paying for a denom takes the least gas, or more. */
  lemma ChargeCosts(env: Env, w: World, payer: Address)
    requires env.Valid() && ValidHooks(env, BooksOf(w.st))
    requires ChargeForDenom(env, w, payer).out.Succeeded?
    ensures w.meter.consumed + LeastGas(env, BooksOf(w.st), w.st.params)
            <= ChargeForDenom(env, w, payer).w.meter.consumed
  {
    var fee, to := w.st.params.fee, env.feeCollector;
    var blocked := Listener(env, w, Block, payer, to, fee).w;
    PassCosts(env, w, Block, payer, to, fee);
    ListenerEvolves(env, w, Block, payer, to, fee);
    CountGrows(env, w.st, blocked.st, fee);
    FollowsKeepsHooks(env, w.st, blocked.st, {});
    if StubbornCount(env, BooksOf(w.st), fee) > 0 && blocked.meter.Remaining() > 0 {
      AnyPassCosts(env, blocked, Track, payer, to, fee);
    }
  }

  // ---------------------------------------------------------------------------
  // Gas keeps hooks from creating denoms
  // ---------------------------------------------------------------------------

  ghost predicate Tight(env: Env, b: Books, params: Params) {
    ValidHooks(env, b) && !Fits(env, b, params)
  }

  lemma TightStays(env: Env, st: State, st': State)
    requires Evolves(env, st, st', {}) && Tight(env, BooksOf(st), st.params)
    ensures Tight(env, BooksOf(st'), st'.params)
  {
    FollowsKeepsHooks(env, st, st', {});
    CountGrows(env, st, st', st.params.fee);
  }

  /** The meter of a hook call that has started to spend. */
  predicate OnHookMeter(w: World) {
    w.meter.limit <= HOOK_GAS_LIMIT && w.meter.consumed >= 1
  }

  lemma {:induction false} ActsCreateNothing(env: Env, w: World, n: nat, j: nat)
    requires env.Valid() && Tight(env, BooksOf(w.st), w.st.params) && OnHookMeter(w) && j <= |env.react(n).acts|
    ensures RunActs(env, w, env.react(n).acts[j..]).w.st.creators == w.st.creators
    decreases w.meter.Remaining(), 6, |env.react(n).acts| - j
  {
    var acts := env.react(n).acts;
    if j < |acts| {
      assert acts[j..][0] == acts[j] && acts[j..][1..] == acts[j + 1..];
      match acts[j]
      case Spend(gas) =>
        var w1 := w.(meter := w.meter.Plus(gas));
        if !w1.meter.Exhausted() {
          ActsCreateNothing(env, w1, n, j + 1);
        }
      case Dispatch(msg) =>
        if !Signable(env, msg) {
          ActsCreateNothing(env, w, n, j + 1);
        } else {
          var r := Deliver(env, w, msg);
          DeliverEvolves(env, w, msg);
          SignableSigners(env, msg);
          EvolvesMore(env, w.st, r.w.st, Signers(msg), {});
          TightStays(env, w.st, r.w.st);
          DeliverCreatesNothing(env, w, msg);
          if !r.out.Panicked? {
            ActsCreateNothing(env, r.w, n, j + 1);
          }
        }
    }
  }

  lemma {:induction false} HookCreatesNothing(
      env: Env, w: World, kind: Kind, contract: string, from: Address, to: Address, coin: Coin)
    requires env.Valid() && Tight(env, BooksOf(w.st), w.st.params)
    ensures CallHook(env, w, kind, contract, from, to, coin).w.st.creators == w.st.creators
    decreases w.meter.Remaining(), 1, 0
  {
    var limit := Min(w.meter.Remaining(), HOOK_GAS_LIMIT);
    var reaction := env.react(w.calls);
    var child := w.(meter := Meter(limit, reaction.entry), calls := w.calls + 1, metered := Counted(w.metered, limit));
    if !child.meter.Exhausted() {
      ActsCreateNothing(env, child, w.calls, 0);
      assert reaction.acts[0..] == reaction.acts;
    }
  }

  lemma {:induction false} ListenerCreatesNothing(
      env: Env, w: World, kind: Kind, from: Address, to: Address, coins: Coins)
    requires env.Valid() && Tight(env, BooksOf(w.st), w.st.params)
    ensures Listener(env, w, kind, from, to, coins).w.st.creators == w.st.creators
    decreases w.meter.Remaining(), 2, |coins|
  {
    if coins != [] {
      var contract := HookOf(w.st, coins[0].denom);
      if contract == "" {
        ListenerCreatesNothing(env, w, kind, from, to, coins[1..]);
      } else if env.codec.decode(contract).Some? {
        var r := CallHook(env, w, kind, contract, from, to, coins[0]);
        HookCreatesNothing(env, w, kind, contract, from, to, coins[0]);
        HookEvolves(env, w, kind, contract, from, to, coins[0]);
        TightStays(env, w.st, r.w.st);
        if r.out.Succeeded? {
          ListenerCreatesNothing(env, r.w, kind, from, to, coins[1..]);
        }
      }
    }
  }

  lemma {:induction false} SendCreatesNothing(env: Env, w: World, from: Address, to: Address, coins: Coins)
    requires env.Valid() && Tight(env, BooksOf(w.st), w.st.params)
    ensures SendCoins(env, w, from, to, coins).w.st.creators == w.st.creators
    decreases w.meter.Remaining(), 3
  {
    var blocked := Listener(env, w, Block, from, to, coins);
    ListenerCreatesNothing(env, w, Block, from, to, coins);
    ListenerEvolves(env, w, Block, from, to, coins);
    TightStays(env, w.st, blocked.w.st);
    if blocked.out.Succeeded? {
      ListenerCreatesNothing(env, blocked.w, Track, from, to, coins);
    }
  }

  lemma {:induction false} AskCreatesNothing(env: Env, w: World, from: Address, outputs: seq<Party>)
    requires env.Valid() && Tight(env, BooksOf(w.st), w.st.params)
    ensures AskForOutputs(env, w, from, outputs).w.st.creators == w.st.creators
    decreases w.meter.Remaining(), 3, |outputs|
  {
    if outputs != [] && env.codec.decode(outputs[0].address).Some?
       && env.codec.decode(outputs[0].address).value !in env.modules {
      var to := env.codec.decode(outputs[0].address).value;
      var blocked := Listener(env, w, Block, from, to, outputs[0].coins);
      ListenerCreatesNothing(env, w, Block, from, to, outputs[0].coins);
      ListenerEvolves(env, w, Block, from, to, outputs[0].coins);
      TightStays(env, w.st, blocked.w.st);
      if blocked.out.Succeeded? {
        var tracked := Listener(env, blocked.w, Track, from, to, outputs[0].coins);
        ListenerCreatesNothing(env, blocked.w, Track, from, to, outputs[0].coins);
        ListenerEvolves(env, blocked.w, Track, from, to, outputs[0].coins);
        TightStays(env, blocked.w.st, tracked.w.st);
        AskCreatesNothing(env, tracked.w, from, outputs[1..]);
      }
    }
  }

  /** A creation that does not fit into a hook call never succeeds in one. */
  lemma CreationRunsOut(env: Env, w: World, sender: string, subdenom: string)
    requires env.Valid() && Tight(env, BooksOf(w.st), w.st.params) && OnHookMeter(w)
    ensures !HandleCreateDenom(env, w, sender, subdenom).out.Succeeded?
  {
    if HandleCreateDenom(env, w, sender, subdenom).out.Succeeded? {
      ChargeCosts(env, w, env.codec.decode(sender).value);
    }
  }

  lemma {:induction false} MintCreatesNothing(env: Env, w: World, sender: string, coin: Coin, to: string)
    requires env.Valid() && Tight(env, BooksOf(w.st), w.st.params)
    requires HandleMint(env, w, sender, coin, to).out.Succeeded?
    ensures HandleMint(env, w, sender, coin, to).w.st.creators == w.st.creators
    decreases w.meter.Remaining(), 4
  {
    var minted := w.(st := MintCoins(env, w.st, coin));
    SendCreatesNothing(env, minted, env.factory, env.codec.decode(if to == "" then sender else to).value, [coin]);
  }

  lemma {:induction false} BurnCreatesNothing(env: Env, w: World, sender: string, coin: Coin)
    requires env.Valid() && Tight(env, BooksOf(w.st), w.st.params)
    requires HandleBurn(env, w, sender, coin).out.Succeeded?
    ensures HandleBurn(env, w, sender, coin).w.st.creators == w.st.creators
    decreases w.meter.Remaining(), 4
  {
    SendCreatesNothing(env, w, env.codec.decode(sender).value, env.factory, [coin]);
  }

  lemma {:induction false} MultiSendCreatesNothing(env: Env, w: World, inputs: seq<Party>, outputs: seq<Party>)
    requires env.Valid() && Tight(env, BooksOf(w.st), w.st.params)
    requires HandleMultiSend(env, w, inputs, outputs).out.Succeeded?
    ensures HandleMultiSend(env, w, inputs, outputs).w.st.creators == w.st.creators
    decreases w.meter.Remaining(), 4
  {
    AskCreatesNothing(env, w, env.codec.decode(inputs[0].address).value, outputs);
  }

  lemma {:induction false} DeliverCreatesNothing(env: Env, w: World, msg: Msg)
    requires env.Valid() && Tight(env, BooksOf(w.st), w.st.params) && OnHookMeter(w)
    ensures Deliver(env, w, msg).w.st.creators == w.st.creators
    decreases w.meter.Remaining(), 5
  {
    if Handle(env, w, msg).out.Succeeded? {
      match msg
      case CreateDenom(sender, subdenom) =>
        CreationRunsOut(env, w, sender, subdenom);
      case Mint(sender, coin, to) =>
        MintCreatesNothing(env, w, sender, coin, to);
      case Burn(sender, coin) =>
        BurnCreatesNothing(env, w, sender, coin);
      case Send(sender, recipient, coins) =>
        assert HandleSend(env, w, sender, recipient, coins).out.Succeeded?;
        SendCreatesNothing(env, w, env.codec.decode(sender).value, env.codec.decode(recipient).value, coins);
      case MultiSend(inputs, outputs) =>
        MultiSendCreatesNothing(env, w, inputs, outputs);
      case SetBeforeSendHook(sender, denom, contract) =>
        assert HandleSetHook(env, w, sender, denom, contract).out.Succeeded?;
      case ChangeAdmin(sender, denom, admin) =>
        assert AfterChangeAdmin(env, w.st, sender, denom, admin).Some?;
      case SetDenomMetadata(sender, md) =>
        assert AfterSetMetadata(env, w.st, sender, md).Some?;
    }
  }

  // ---------------------------------------------------------------------------
  // When creation is safe
  // ---------------------------------------------------------------------------

  predicate Unhooked(st: State, coins: Coins) {
    forall k :: 0 <= k < |coins| ==> HookOf(st, coins[k].denom) == ""
  }

  lemma {:induction false} UnhookedListener(env: Env, w: World, kind: Kind, from: Address, to: Address, coins: Coins)
    requires Unhooked(w.st, coins)
    ensures Listener(env, w, kind, from, to, coins) == Run(w, Succeeded)
    decreases |coins|
  {
    if coins != [] {
      UnhookedListener(env, w, kind, from, to, coins[1..]);
    }
  }

  /** The state in which a denom that was found free is recorded. */
  function AtRecording(env: Env, w: World, sender: string): State
    requires env.codec.decode(sender).Some?
  {
    ChargeForDenom(env, w, env.codec.decode(sender).value).w.st
  }

  /** Recording a denom overwrites an admin if and only if the denom has metadata
      by then, which is what `createDenomAfterValidation` looks up first. */
  lemma OverwritesIff(env: Env, w: World, sender: string, subdenom: string)
    requires env.Valid() && Indexed(env, w.st) && !IsModule(env, sender)
    requires HandleCreateDenom(env, w, sender, subdenom).out.Succeeded?
    ensures var denom := NewDenom(env, w.st, sender, subdenom).value;
            denom in AtRecording(env, w, sender).admins <==> denom in AtRecording(env, w, sender).metadata
    ensures HandleCreateDenom(env, w, sender, subdenom).w.st.admins ==
              AtRecording(env, w, sender).admins[NewDenom(env, w.st, sender, subdenom).value := sender]
  {
    ChargeEvolves(env, w, env.codec.decode(sender).value);
  }

  /** Creation never overwrites an admin if no coin of the fee has a hook, if no
      contract can sign for the creator, or if a creation does not fit into a hook
      call. */
  lemma CreationIsFresh(env: Env, w: World, sender: string, subdenom: string)
    requires env.Valid() && Indexed(env, w.st) && ValidHooks(env, BooksOf(w.st)) && !IsModule(env, sender)
    requires HandleCreateDenom(env, w, sender, subdenom).out.Succeeded?
    requires Unhooked(w.st, w.st.params.fee) || !CanSign(env, sender) || !Fits(env, BooksOf(w.st), w.st.params)
    ensures NewDenom(env, w.st, sender, subdenom).value !in AtRecording(env, w, sender).admins
  {
    var denom := NewDenom(env, w.st, sender, subdenom).value;
    var mid := AtRecording(env, w, sender);
    ChargeEvolves(env, w, env.codec.decode(sender).value);
    if !CanSign(env, sender) {
      if denom in mid.admins {
        BuildThenDeconstruct(env.codec, sender, subdenom);
        NobodyElseCreates(env, w.st, mid, sender, denom);
      }
    } else {
      FeeCreatesNothing(env, w, sender);
      assert mid.admins.Keys == Listed(mid.creators) == w.st.admins.Keys;
    }
  }

  /** Without a hook, or without enough gas in a hook call, the index does not even
      change while the fee is paid. */
  lemma FeeCreatesNothing(env: Env, w: World, sender: string)
    requires env.Valid() && ValidHooks(env, BooksOf(w.st)) && env.codec.decode(sender).Some?
    requires ChargeForDenom(env, w, env.codec.decode(sender).value).out.Succeeded?
    requires Unhooked(w.st, w.st.params.fee) || !Fits(env, BooksOf(w.st), w.st.params)
    ensures AtRecording(env, w, sender).creators == w.st.creators
  {
    var payer := env.codec.decode(sender).value;
    if Unhooked(w.st, w.st.params.fee) {
      UnhookedListener(env, w, Block, payer, env.feeCollector, w.st.params.fee);
      UnhookedListener(env, w, Track, payer, env.feeCollector, w.st.params.fee);
    } else {
      SendCreatesNothing(env, w, payer, env.feeCollector, w.st.params.fee);
    }
  }

  /** A denom that appeared while its fee was being paid was created in the name of
      the same creator, by a contract that could sign for them. */
  lemma NobodyElseCreates(env: Env, st: State, mid: State, sender: string, denom: string)
    requires Indexed(env, st) && Indexed(env, mid) && Evolves(env, st, mid, {})
    requires denom !in st.metadata && BuiltFrom(sender, denom) && denom in mid.admins
    ensures CanSign(env, sender)
  {
    var p :| p in mid.creators && p.1 == denom;
    OnlyThisCreator(env, st, mid, sender, denom);
    assert p in st.creators ==> p.1 in Listed(st.creators);
    var log := mid.journal[|st.journal|..];
    var k := ListedWasCreated(BooksOf(st), log, p);
    assert Warranted(env, BooksOf(st), |st.journal|, mid.journal, {}, |st.journal| + k);
  }
}
