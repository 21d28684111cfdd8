/** The induction over the nest of messages and contract calls, and the laws of
    whole runs that follow from it.
  */
module LedgerNest {
  import opened Options
  import opened Denoms
  import opened Bank
  import opened Ledger
  import opened Chronicle
  import opened LedgerLaws

  /** Who signed a message. */
  function Signers(msg: Msg): set<string> {
    if msg.MultiSend? then set p | p in msg.inputs :: p.address else {msg.sender}
  }

  lemma SignableSigners(env: Env, msg: Msg)
    requires Signable(env, msg)
    ensures forall s :: s in Signers(msg) ==> CanSign(env, s)
  {
    if msg.MultiSend? {
      forall s | s in Signers(msg) ensures CanSign(env, s) {
        var k :| 0 <= k < |msg.inputs| && msg.inputs[k].address == s;
      }
    }
  }

  lemma EvolvesMore(env: Env, st: State, st': State, signers: set<string>, more: set<string>)
    requires Evolves(env, st, st', signers)
    requires forall s :: s in signers ==> s in more || CanSign(env, s)
    ensures Evolves(env, st, st', more)
  {
    FollowsMore(env, st, st', signers, more);
  }

  // ---------------------------------------------------------------------------
  // Contract calls and hooks
  // ---------------------------------------------------------------------------

  lemma {:induction false} ActsEvolve(env: Env, w: World, n: nat, j: nat)
    requires env.Valid() && j <= |env.react(n).acts|
    ensures Evolves(env, w.st, RunActs(env, w, env.react(n).acts[j..]).w.st, {})
    decreases w.meter.Remaining(), 6, |env.react(n).acts| - j
  {
    var acts := env.react(n).acts;
    if j == |acts| {
      EvolvesReflexive(env, w.st, {});
    } else {
      assert acts[j..][0] == acts[j] && acts[j..][1..] == acts[j + 1..];
      match acts[j]
      case Spend(gas) =>
        var w1 := w.(meter := w.meter.Plus(gas));
        if w1.meter.Exhausted() {
          EvolvesReflexive(env, w.st, {});
        } else {
          ActsEvolve(env, w1, n, j + 1);
        }
      case Dispatch(msg) =>
        if !Signable(env, msg) {
          ActsEvolve(env, w, n, j + 1);
        } else {
          var r := Deliver(env, w, msg);
          DeliverEvolves(env, w, msg);
          SignableSigners(env, msg);
          EvolvesMore(env, w.st, r.w.st, Signers(msg), {});
          if !r.out.Panicked? {
            ActsEvolve(env, r.w, n, j + 1);
            EvolvesTransitive(env, w.st, r.w.st, RunActs(env, r.w, acts[j + 1..]).w.st, {});
          }
        }
    }
  }

  lemma {:induction false} ContractEvolves(env: Env, w: World, n: nat)
    requires env.Valid()
    ensures Evolves(env, w.st, RunContract(env, w, env.react(n)).w.st, {})
    decreases w.meter.Remaining(), 0, 1
  {
    var reaction := env.react(n);
    var w1 := w.(meter := w.meter.Plus(reaction.entry));
    if w1.meter.Exhausted() {
      EvolvesReflexive(env, w.st, {});
    } else {
      ActsEvolve(env, w1, n, 0);
      assert reaction.acts[0..] == reaction.acts;
    }
  }

  lemma {:induction false} HookEvolves(
      env: Env, w: World, kind: Kind, contract: string, from: Address, to: Address, coin: Coin)
    requires env.Valid()
    ensures Evolves(env, w.st, CallHook(env, w, kind, contract, from, to, coin).w.st, {})
    decreases w.meter.Remaining(), 1, 0
  {
    var limit := Min(w.meter.Remaining(), HOOK_GAS_LIMIT);
    var child := w.(meter := Meter(limit, 0), calls := w.calls + 1, metered := Counted(w.metered, limit));
    ContractEvolves(env, child, w.calls);
  }

  lemma {:induction false} ListenerEvolves(env: Env, w: World, kind: Kind, from: Address, to: Address, coins: Coins)
    requires env.Valid()
    ensures Evolves(env, w.st, Listener(env, w, kind, from, to, coins).w.st, {})
    decreases w.meter.Remaining(), 2, |coins|
  {
    if coins == [] {
      EvolvesReflexive(env, w.st, {});
    } else {
      var contract := HookOf(w.st, coins[0].denom);
      if contract == "" {
        ListenerEvolves(env, w, kind, from, to, coins[1..]);
      } else if env.codec.decode(contract).None? {
        EvolvesReflexive(env, w.st, {});
      } else {
        var r := CallHook(env, w, kind, contract, from, to, coins[0]);
        HookEvolves(env, w, kind, contract, from, to, coins[0]);
        if r.out.Succeeded? {
          ListenerEvolves(env, r.w, kind, from, to, coins[1..]);
          EvolvesTransitive(env, w.st, r.w.st, Listener(env, r.w, kind, from, to, coins[1..]).w.st, {});
        }
      }
    }
  }

  /** A send that succeeds is a transfer on a state that the hooks left behind. */
  lemma {:induction false} SendEvolves(
      env: Env, w: World, from: Address, to: Address, coins: Coins) returns (mid: State)
    requires env.Valid()
    ensures Evolves(env, w.st, mid, {})
    ensures var r := SendCoins(env, w, from, to, coins);
            if r.out.Succeeded? then
              Transfer(mid.balances, from, to, coins).Some? &&
              r.w.st == mid.(balances := Transfer(mid.balances, from, to, coins).value)
            else r.w.st == mid
    decreases w.meter.Remaining(), 3
  {
    var blocked := Listener(env, w, Block, from, to, coins);
    ListenerEvolves(env, w, Block, from, to, coins);
    mid := blocked.w.st;
    if blocked.out.Succeeded? {
      mid := Listener(env, blocked.w, Track, from, to, coins).w.st;
      ListenerEvolves(env, blocked.w, Track, from, to, coins);
      EvolvesTransitive(env, w.st, blocked.w.st, mid, {});
    }
  }

  lemma {:induction false} AskEvolves(env: Env, w: World, from: Address, outputs: seq<Party>)
    requires env.Valid()
    ensures Evolves(env, w.st, AskForOutputs(env, w, from, outputs).w.st, {})
    ensures AskForOutputs(env, w, from, outputs).out.Succeeded? ==>
              forall k :: 0 <= k < |outputs| ==> env.codec.decode(outputs[k].address) != Some(env.factory)
    decreases w.meter.Remaining(), 3, |outputs|
  {
    if outputs == [] {
      EvolvesReflexive(env, w.st, {});
    } else if env.codec.decode(outputs[0].address).None? || env.codec.decode(outputs[0].address).value in env.modules {
      EvolvesReflexive(env, w.st, {});
    } else {
      var to := env.codec.decode(outputs[0].address).value;
      var blocked := Listener(env, w, Block, from, to, outputs[0].coins);
      ListenerEvolves(env, w, Block, from, to, outputs[0].coins);
      if blocked.out.Succeeded? {
        var tracked := Listener(env, blocked.w, Track, from, to, outputs[0].coins);
        ListenerEvolves(env, blocked.w, Track, from, to, outputs[0].coins);
        AskEvolves(env, tracked.w, from, outputs[1..]);
        EvolvesTransitive(env, w.st, blocked.w.st, tracked.w.st, {});
        EvolvesTransitive(env, w.st, tracked.w.st, AskForOutputs(env, tracked.w, from, outputs[1..]).w.st, {});
      }
    }
  }

  // ---------------------------------------------------------------------------
  // Messages
  // ---------------------------------------------------------------------------

  function AfterMint(env: Env, mid: State, to: Address, e: Entry): State
    requires e.deed.Minted? && Transfer(mid.balances, env.factory, to, [e.deed.coin]).Some?
  {
    mid.(balances := Transfer(mid.balances, env.factory, to, [e.deed.coin]).value, journal := mid.journal + [e])
  }

  lemma MintSteps(env: Env, st: State, mid: State, to: Address, e: Entry)
    requires e.deed.Minted? && ValidCoin(e.deed.coin) && to != env.factory
    requires e.since == |st.journal| && Rightful(env, BooksOf(st), e)
    requires Evolves(env, MintCoins(env, st, e.deed.coin), mid, {})
    requires Transfer(mid.balances, env.factory, to, [e.deed.coin]).Some?
    ensures Evolves(env, st, AfterMint(env, mid, to, e), {e.sender})
  {
    var coin := e.deed.coin;
    var minted := MintCoins(env, st, coin);
    MintCoinsIssues(env, st, coin);
    TransferHandsOut(env, mid, to, coin);
    var sent := mid.(balances := Transfer(mid.balances, env.factory, to, [coin]).value);
    MintSound(env, st, minted, mid, sent, e);
    FollowsAlike(env, st, minted, mid, mid, {});
    FollowsMore(env, st, mid, {}, {e.sender});
    FollowsNote(env, st, mid, AfterMint(env, mid, to, e), e, {e.sender});
  }

  lemma {:induction false} MintEvolves(env: Env, w: World, sender: string, coin: Coin, to: string)
    requires env.Valid()
    requires HandleMint(env, w, sender, coin, to).out.Succeeded?
    ensures Evolves(env, w.st, HandleMint(env, w, sender, coin, to).w.st, {sender})
    decreases w.meter.Remaining(), 4
  {
    var recipient := env.codec.decode(if to == "" then sender else to).value;
    var mid := SendEvolves(env, w.(st := MintCoins(env, w.st, coin)), env.factory, recipient, [coin]);
    var e := Entry(sender, |w.st.journal|, Minted(coin));
    assert HandleMint(env, w, sender, coin, to).w.st == AfterMint(env, mid, recipient, e);
    MintSteps(env, w.st, mid, recipient, e);
  }

  function Taken(env: Env, mid: State, from: Address, coin: Coin): State
    requires Transfer(mid.balances, from, env.factory, [coin]).Some?
  {
    mid.(balances := Transfer(mid.balances, from, env.factory, [coin]).value)
  }

  function AfterBurn(env: Env, taken: State, e: Entry): State
    requires e.deed.Burned? && e.deed.coin.amount > 0 && BurnCoins(env, taken, e.deed.coin).Some?
  {
    BurnCoins(env, taken, e.deed.coin).value.(journal := taken.journal + [e])
  }

  lemma BurnSteps(env: Env, st: State, mid: State, from: Address, e: Entry)
    requires e.deed.Burned? && ValidCoin(e.deed.coin) && from != env.factory
    requires e.since == |st.journal| && Rightful(env, BooksOf(st), e)
    requires Evolves(env, st, mid, {})
    requires Transfer(mid.balances, from, env.factory, [e.deed.coin]).Some?
    requires BurnCoins(env, Taken(env, mid, from, e.deed.coin), e.deed.coin).Some?
    ensures Evolves(env, st, AfterBurn(env, Taken(env, mid, from, e.deed.coin), e), {e.sender})
  {
    var coin := e.deed.coin;
    var taken := Taken(env, mid, from, coin);
    var burned := BurnCoins(env, taken, coin).value;
    TransferHandsOut(env, mid, from, coin);
    BurnCoinsWithdraws(env, taken, coin);
    BurnSound(env, st, mid, taken, burned, e);
    FollowsMore(env, st, mid, {}, {e.sender});
    FollowsNote(env, st, mid, AfterBurn(env, taken, e), e, {e.sender});
  }

  lemma {:induction false} BurnEvolves(env: Env, w: World, sender: string, coin: Coin)
    requires env.Valid()
    requires HandleBurn(env, w, sender, coin).out.Succeeded?
    ensures Evolves(env, w.st, HandleBurn(env, w, sender, coin).w.st, {sender})
    decreases w.meter.Remaining(), 4
  {
    var from := env.codec.decode(sender).value;
    var mid := SendEvolves(env, w, from, env.factory, [coin]);
    var taken := Taken(env, mid, from, coin);
    var e := Entry(sender, |w.st.journal|, Burned(coin));
    assert HandleBurn(env, w, sender, coin).w.st == AfterBurn(env, taken, e);
    BurnSteps(env, w.st, mid, from, e);
  }

  lemma {:induction false} SendMessageEvolves(env: Env, w: World, sender: string, recipient: string, coins: Coins)
    requires env.Valid() && !IsModule(env, sender)
    requires HandleSend(env, w, sender, recipient, coins).out.Succeeded?
    ensures Evolves(env, w.st, HandleSend(env, w, sender, recipient, coins).w.st, {})
    decreases w.meter.Remaining(), 4
  {
    var from, to := env.codec.decode(sender).value, env.codec.decode(recipient).value;
    var mid := SendEvolves(env, w, from, to, coins);
    TransferRearranges(env, mid.balances, from, to, coins);
    RearrangedEvolves(env, mid, Transfer(mid.balances, from, to, coins).value, {});
    EvolvesTransitive(env, w.st, mid, HandleSend(env, w, sender, recipient, coins).w.st, {});
  }

  lemma {:induction false} MultiSendEvolves(env: Env, w: World, inputs: seq<Party>, outputs: seq<Party>)
    requires env.Valid() && Authentic(env, MultiSend(inputs, outputs))
    requires HandleMultiSend(env, w, inputs, outputs).out.Succeeded?
    ensures Evolves(env, w.st, HandleMultiSend(env, w, inputs, outputs).w.st, {})
    decreases w.meter.Remaining(), 4
  {
    var from := env.codec.decode(inputs[0].address).value;
    var mid := AskForOutputs(env, w, from, outputs).w.st;
    AskEvolves(env, w, from, outputs);
    DistributeRearranges(env, mid.balances, inputs[0], outputs);
    RearrangedEvolves(env, mid, Distribute(env.codec, mid.balances, inputs[0], outputs).value, {});
    EvolvesTransitive(env, w.st, mid, HandleMultiSend(env, w, inputs, outputs).w.st, {});
  }

  // Creation ----------------------------------------------------------------

  lemma {:induction false} ChargeEvolves(env: Env, w: World, payer: Address)
    requires env.Valid() && payer !in env.modules
    requires ChargeForDenom(env, w, payer).out.Succeeded?
    ensures Evolves(env, w.st, ChargeForDenom(env, w, payer).w.st, {})
    decreases w.meter.Remaining(), 4, 0
  {
    var fee := w.st.params.fee;
    var mid := SendEvolves(env, w, payer, env.feeCollector, fee);
    TransferRearranges(env, mid.balances, payer, env.feeCollector, fee);
    RearrangedEvolves(env, mid, Transfer(mid.balances, payer, env.feeCollector, fee).value, {});
    EvolvesTransitive(env, w.st, mid, ChargeForDenom(env, w, payer).w.st, {});
  }

  /** While a denom was being paid for, only its own creator can have created it. */
  lemma OnlyThisCreator(env: Env, st: State, mid: State, sender: string, denom: string)
    requires Indexed(env, st) && denom !in st.metadata && IndexGrows(st, mid)
    requires BuiltFrom(sender, denom)
    ensures forall p :: p in mid.creators && p.1 == denom ==> p.0 == sender
  {
    forall p | p in mid.creators && p.1 == denom
      ensures p.0 == sender
    {
      assert p in st.creators ==> p.1 in Listed(st.creators);
      var s :| denom == FactoryDenom(sender, s);
      var s' :| denom == FactoryDenom(p.0, s');
      BuildIsInjective(sender, s, p.0, s');
    }
  }

  lemma AddDenomIndexed(env: Env, mid: State, sender: string, denom: string)
    requires Indexed(env, mid) && Attributed(env, sender, denom)
    requires forall p :: p in mid.creators && p.1 == denom ==> p.0 == sender
    ensures Indexed(env, AddDenom(mid, sender, denom))
  {
    var st' := AddDenom(mid, sender, denom);
    AddListed(mid.creators, (sender, denom));
    AddAttributed(env, mid.creators, sender, denom);
    AddAdministered(env, mid, sender, denom);
  }

  lemma AddListed(creators: set<(string, string)>, pair: (string, string))
    requires OneCreator(creators)
    requires forall p :: p in creators && p.1 == pair.1 ==> p == pair
    ensures Listed(creators + {pair}) == Listed(creators) + {pair.1}
    ensures OneCreator(creators + {pair})
  {
    var creators' := creators + {pair};
    forall d | d in Listed(creators) + {pair.1}
      ensures d in Listed(creators')
    {
      if d == pair.1 {
        assert pair in creators';
      } else {
        var p :| p in creators && p.1 == d;
        assert p in creators';
      }
    }
  }

  lemma AddAdministered(env: Env, mid: State, sender: string, denom: string)
    requires AllAdministered(env, mid.admins, mid.metadata) && env.codec.decode(sender).Some?
    ensures AllAdministered(env, AddDenom(mid, sender, denom).admins, AddDenom(mid, sender, denom).metadata)
  {
  }

  lemma AddAttributed(env: Env, creators: set<(string, string)>, sender: string, denom: string)
    requires AllAttributed(env, creators) && Attributed(env, sender, denom)
    ensures AllAttributed(env, creators + {(sender, denom)})
  {
  }

  lemma AddDenomSound(env: Env, st: State, mid: State, sender: string, denom: string, e: Entry)
    requires Sound(env, st, mid) && denom !in st.metadata
    requires BuiltFrom(sender, denom) && Attributed(env, sender, denom)
    requires e.deed == Created(denom)
    ensures Sound(env, st, AddDenom(mid, sender, denom).(journal := mid.journal + [e]))
  {
    var added := AddDenom(mid, sender, denom);
    var st' := added.(journal := mid.journal + [e]);
    NotedConserves(st, mid, st', e);
    if Indexed(env, st) {
      OnlyThisCreator(env, st, mid, sender, denom);
      AddDenomIndexed(env, mid, sender, denom);
      SameBooksIndexed(env, added, st');
    }
  }

  /** An entry that is neither mint nor burn does not count. */
  lemma NotedConserves(st: State, mid: State, st': State, e: Entry)
    requires Conserves(st, mid) && !e.deed.Minted? && !e.deed.Burned?
    requires st'.balances == mid.balances && st'.supply == mid.supply && st'.journal == mid.journal + [e]
    ensures Conserves(st, st')
  {
    forall d
      ensures SupplyOf(st', d) - SupplyOf(st, d) == Net(st'.journal, d) - Net(st.journal, d)
      ensures Balanced(mid) ==> Sum(st'.balances, d) == SupplyOf(st', d)
    {
      NetOfRecord(mid.journal, e, d);
      assert SupplyOf(mid, d) - SupplyOf(st, d) == Net(mid.journal, d) - Net(st.journal, d);
    }
  }

  lemma {:induction false} CreateDenomEvolves(env: Env, w: World, sender: string, subdenom: string)
    requires env.Valid() && !IsModule(env, sender)
    requires HandleCreateDenom(env, w, sender, subdenom).out.Succeeded?
    ensures Evolves(env, w.st, HandleCreateDenom(env, w, sender, subdenom).w.st, {sender})
    decreases w.meter.Remaining(), 4, 1
  {
    var denom := NewDenom(env, w.st, sender, subdenom).value;
    var mid := ChargeForDenom(env, w, env.codec.decode(sender).value).w.st;
    ChargeEvolves(env, w, env.codec.decode(sender).value);
    BuildThenDeconstruct(env.codec, sender, subdenom);
    var e := Entry(sender, |w.st.journal|, Created(denom));
    AddDenomSound(env, w.st, mid, sender, denom, e);
    FollowsMore(env, w.st, mid, {}, {sender});
    FollowsNote(env, w.st, mid, HandleCreateDenom(env, w, sender, subdenom).w.st, e, {sender});
  }

  // The rest ------------------------------------------------------------------

  lemma SetAdminIndexed(env: Env, st: State, denom: string, admin: string)
    requires denom in st.admins && ValidAdmin(env, admin)
    ensures Indexed(env, st) ==> Indexed(env, st.(admins := st.admins[denom := admin]))
  {
    assert st.admins[denom := admin].Keys == st.admins.Keys;
  }

  lemma SetMetadataIndexed(env: Env, st: State, denom: string, md: Metadata)
    ensures Indexed(env, st) ==> Indexed(env, st.(metadata := st.metadata[denom := md]))
  {
  }

  /** One entry that leaves money where it was. */
  lemma NotedEvolves(env: Env, st: State, st': State, e: Entry)
    requires st'.balances == st.balances && st'.supply == st.supply && st'.params == st.params
    requires Indexes(env, st, st')
    requires st'.journal == st.journal + [e] && BooksOf(st') == Enact(BooksOf(st), e)
    requires e.since == |st.journal| && !e.deed.Minted? && !e.deed.Burned? && Rightful(env, BooksOf(st), e)
    ensures Evolves(env, st, st', {e.sender})
  {
    SoundReflexive(env, st);
    NotedConserves(st, st, st', e);
    FollowsReflexive(env, st, {e.sender});
    FollowsNote(env, st, st, st', e, {e.sender});
  }

  lemma ChangeAdminEvolves(env: Env, st: State, sender: string, denom: string, admin: string)
    requires env.Valid() && AfterChangeAdmin(env, st, sender, denom, admin).Some?
    ensures Evolves(env, st, AfterChangeAdmin(env, st, sender, denom, admin).value, {sender})
  {
    var st' := AfterChangeAdmin(env, st, sender, denom, admin).value;
    SetAdminIndexed(env, st, denom, admin);
    SameBooksIndexed(env, st.(admins := st.admins[denom := admin]), st');
    NotedEvolves(env, st, st', Entry(sender, |st.journal|, AdminSet(denom, admin)));
  }

  lemma SetDenomMetadataEvolves(env: Env, st: State, sender: string, md: Metadata)
    requires env.Valid() && AfterSetMetadata(env, st, sender, md).Some?
    ensures Evolves(env, st, AfterSetMetadata(env, st, sender, md).value, {sender})
  {
    var st' := AfterSetMetadata(env, st, sender, md).value;
    SetMetadataIndexed(env, st, md.base, md);
    SameBooksIndexed(env, st.(metadata := st.metadata[md.base := md]), st');
    NotedEvolves(env, st, st', Entry(sender, |st.journal|, MetadataSet(md)));
  }

  lemma SetHookEvolves(env: Env, w: World, sender: string, denom: string, contract: string)
    requires env.Valid() && HandleSetHook(env, w, sender, denom, contract).out.Succeeded?
    ensures HandleSetHook(env, w, sender, denom, contract).w.st == AfterSetHook(w.st, sender, denom, contract)
    ensures Evolves(env, w.st, HandleSetHook(env, w, sender, denom, contract).w.st, {sender})
  {
    var st' := AfterSetHook(w.st, sender, denom, contract);
    SameBooksIndexed(env, w.st, st');
    NotedEvolves(env, w.st, st', Entry(sender, |w.st.journal|, HookSet(denom, contract)));
  }

  lemma {:induction false} DeliverEvolves(env: Env, w: World, msg: Msg)
    requires env.Valid()
    ensures Evolves(env, w.st, Deliver(env, w, msg).w.st, Signers(msg))
    decreases w.meter.Remaining(), 5
  {
    var r := Handle(env, w, msg);
    if !r.out.Succeeded? {
      EvolvesReflexive(env, w.st, Signers(msg));
    } else {
      match msg
      case CreateDenom(sender, subdenom) => CreateDenomEvolves(env, w, sender, subdenom);
      case Mint(sender, coin, to) => MintEvolves(env, w, sender, coin, to);
      case Burn(sender, coin) => BurnEvolves(env, w, sender, coin);
      case ChangeAdmin(sender, denom, admin) => ChangeAdminEvolves(env, w.st, sender, denom, admin);
      case SetDenomMetadata(sender, md) => SetDenomMetadataEvolves(env, w.st, sender, md);
      case SetBeforeSendHook(sender, denom, contract) => SetHookEvolves(env, w, sender, denom, contract);
      case Send(sender, recipient, coins) =>
        SendMessageEvolves(env, w, sender, recipient, coins);
        EvolvesMore(env, w.st, r.w.st, {}, {sender});
      case MultiSend(inputs, outputs) =>
        MultiSendEvolves(env, w, inputs, outputs);
        EvolvesMore(env, w.st, r.w.st, {}, Signers(msg));
    }
  }
}
