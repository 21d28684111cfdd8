/** Nobody's money moves without them. Through all messages and hooks, the balance
    of an account falls only if the account signed, or lets contracts sign for it.
  */
module LedgerPayers {
  import opened Options
  import opened Denoms
  import opened Bank
  import opened Ledger
  import opened LedgerNest
  import opened LedgerTheorems

  // ---------------------------------------------------------------------------
  // The law
  // ---------------------------------------------------------------------------

  /** The account signed, or contracts can sign for it. Nobody signs for a module. */
  ghost predicate SpokenFor(env: Env, signers: set<string>, a: Address) {
    && a !in env.modules
    && (env.delegates(a) || exists s :: s in signers && env.codec.decode(s) == Some(a))
  }

  /** No account that is not spoken for has lost anything, apart from the factory's,
      through which mints and burns pass. */
  ghost predicate Spares(env: Env, b: Balances, b': Balances, signers: set<string>) {
    forall a, d :: a != env.factory && !SpokenFor(env, signers, a) ==> Balance(b, a, d) <= Balance(b', a, d)
  }

  lemma SparesTransitive(env: Env, a: Balances, b: Balances, c: Balances, signers: set<string>)
    requires Spares(env, a, b, signers) && Spares(env, b, c, signers)
    ensures Spares(env, a, c, signers)
  {
    forall x, d | x != env.factory && !SpokenFor(env, signers, x) ensures Balance(a, x, d) <= Balance(c, x, d) {
      assert Balance(a, x, d) <= Balance(b, x, d);
    }
  }

  lemma SparesMore(env: Env, b: Balances, b': Balances, signers: set<string>, more: set<string>)
    requires Spares(env, b, b', signers)
    requires forall s :: s in signers ==> s in more || CanSign(env, s)
    ensures Spares(env, b, b', more)
  {
    forall a, d | a != env.factory && !SpokenFor(env, more, a) ensures Balance(b, a, d) <= Balance(b', a, d) {
      assert !SpokenFor(env, signers, a);
    }
  }

  lemma TransferSpares(env: Env, b: Balances, from: Address, to: Address, coins: Coins, signers: set<string>)
    requires Transfer(b, from, to, coins).Some? && (from == env.factory || SpokenFor(env, signers, from))
    ensures Spares(env, b, Transfer(b, from, to, coins).value, signers)
  {
    var b' := Transfer(b, from, to, coins).value;
    TransferEffect(b, from, to, coins);
    forall a, d | a != env.factory && !SpokenFor(env, signers, a) ensures Balance(b, a, d) <= Balance(b', a, d) {
      AmountNotNegative(coins, d);
    }
  }

  lemma DistributeSpares(env: Env, b: Balances, input: Party, outputs: seq<Party>, signers: set<string>)
    requires Distribute(env.codec, b, input, outputs).Some?
    requires SpokenFor(env, signers, env.codec.decode(input.address).value)
    ensures Spares(env, b, Distribute(env.codec, b, input, outputs).value, signers)
  {
    var b' := Distribute(env.codec, b, input, outputs).value;
    DistributeEffect(env.codec, b, input, outputs);
    forall a, d | a != env.factory && !SpokenFor(env, signers, a) ensures Balance(b, a, d) <= Balance(b', a, d) {
      ReceivesNotNegative(env.codec, outputs, a, d);
    }
  }

  lemma {:induction false} ReceivesNotNegative(codec: Codec, outputs: seq<Party>, a: Address, d: string)
    requires forall k :: 0 <= k < |outputs| ==> ValidParty(codec, outputs[k])
    ensures Receives(codec, outputs, a, d) >= 0
    decreases |outputs|
  {
    if outputs != [] {
      assert ValidParty(codec, outputs[0]);
      AmountNotNegative(outputs[0].coins, d);
      ReceivesNotNegative(codec, outputs[1..], a, d);
    }
  }

  lemma MintCoinsSpares(env: Env, st: State, coin: Coin)
    requires coin.amount > 0
    ensures Spares(env, st.balances, MintCoins(env, st, coin).balances, {})
  {
    AddCoinsEffect(st.balances, env.factory, [coin]);
  }

  lemma BurnCoinsSpares(env: Env, st: State, coin: Coin)
    requires coin.amount > 0 && BurnCoins(env, st, coin).Some?
    ensures Spares(env, st.balances, BurnCoins(env, st, coin).value.balances, {})
  {
    SubCoinsEffect(st.balances, env.factory, [coin]);
  }

  // ---------------------------------------------------------------------------
  // Through the nest
  // ---------------------------------------------------------------------------

  lemma {:induction false} ActsSpare(env: Env, w: World, n: nat, j: nat)
    requires env.Valid() && j <= |env.react(n).acts|
    ensures Spares(env, w.st.balances, RunActs(env, w, env.react(n).acts[j..]).w.st.balances, {})
    decreases w.meter.Remaining(), 6, |env.react(n).acts| - j
  {
    var acts := env.react(n).acts;
    if j < |acts| {
      assert acts[j..][0] == acts[j] && acts[j..][1..] == acts[j + 1..];
      match acts[j]
      case Spend(gas) =>
        var w1 := w.(meter := w.meter.Plus(gas));
        if !w1.meter.Exhausted() {
          ActsSpare(env, w1, n, j + 1);
        }
      case Dispatch(msg) =>
        if !Signable(env, msg) {
          ActsSpare(env, w, n, j + 1);
        } else {
          var r := Deliver(env, w, msg);
          DeliverSpares(env, w, msg);
          SignableSigners(env, msg);
          SparesMore(env, w.st.balances, r.w.st.balances, Signers(msg), {});
          if !r.out.Panicked? {
            ActsSpare(env, r.w, n, j + 1);
            SparesTransitive(env, w.st.balances, r.w.st.balances, RunActs(env, r.w, acts[j + 1..]).w.st.balances, {});
          }
        }
    }
  }

  lemma {:induction false} HookSpares(
      env: Env, w: World, kind: Kind, contract: string, from: Address, to: Address, coin: Coin)
    requires env.Valid()
    ensures Spares(env, w.st.balances, CallHook(env, w, kind, contract, from, to, coin).w.st.balances, {})
    decreases w.meter.Remaining(), 1, 0
  {
    var limit := Min(w.meter.Remaining(), HOOK_GAS_LIMIT);
    var reaction := env.react(w.calls);
    var child := w.(meter := Meter(limit, reaction.entry), calls := w.calls + 1, metered := Counted(w.metered, limit));
    if !child.meter.Exhausted() {
      ActsSpare(env, child, w.calls, 0);
      assert reaction.acts[0..] == reaction.acts;
    }
  }

  lemma {:induction false} ListenerSpares(env: Env, w: World, kind: Kind, from: Address, to: Address, coins: Coins)
    requires env.Valid()
    ensures Spares(env, w.st.balances, Listener(env, w, kind, from, to, coins).w.st.balances, {})
    decreases w.meter.Remaining(), 2, |coins|
  {
    if coins != [] {
      var contract := HookOf(w.st, coins[0].denom);
      if contract == "" {
        ListenerSpares(env, w, kind, from, to, coins[1..]);
      } else if env.codec.decode(contract).Some? {
        var r := CallHook(env, w, kind, contract, from, to, coins[0]);
        HookSpares(env, w, kind, contract, from, to, coins[0]);
        if r.out.Succeeded? {
          ListenerSpares(env, r.w, kind, from, to, coins[1..]);
          SparesTransitive(env, w.st.balances, r.w.st.balances,
                           Listener(env, r.w, kind, from, to, coins[1..]).w.st.balances, {});
        }
      }
    }
  }

  lemma {:induction false} SendSpares(
      env: Env, w: World, from: Address, to: Address, coins: Coins, signers: set<string>)
    requires env.Valid() && (from == env.factory || SpokenFor(env, signers, from))
    ensures Spares(env, w.st.balances, SendCoins(env, w, from, to, coins).w.st.balances, signers)
    decreases w.meter.Remaining(), 3
  {
    var blocked := Listener(env, w, Block, from, to, coins);
    ListenerSpares(env, w, Block, from, to, coins);
    SparesMore(env, w.st.balances, blocked.w.st.balances, {}, signers);
    if blocked.out.Succeeded? {
      var asked := Listener(env, blocked.w, Track, from, to, coins).w.st.balances;
      ListenerSpares(env, blocked.w, Track, from, to, coins);
      SparesMore(env, blocked.w.st.balances, asked, {}, signers);
      SparesTransitive(env, w.st.balances, blocked.w.st.balances, asked, signers);
      if Transfer(asked, from, to, coins).Some? {
        TransferSpares(env, asked, from, to, coins, signers);
        SparesTransitive(env, w.st.balances, asked, Transfer(asked, from, to, coins).value, signers);
      }
    }
  }

  lemma {:induction false} AskSpares(env: Env, w: World, from: Address, outputs: seq<Party>)
    requires env.Valid()
    ensures Spares(env, w.st.balances, AskForOutputs(env, w, from, outputs).w.st.balances, {})
    decreases w.meter.Remaining(), 3, |outputs|
  {
    if outputs != [] && env.codec.decode(outputs[0].address).Some?
       && env.codec.decode(outputs[0].address).value !in env.modules {
      var to := env.codec.decode(outputs[0].address).value;
      var blocked := Listener(env, w, Block, from, to, outputs[0].coins);
      ListenerSpares(env, w, Block, from, to, outputs[0].coins);
      if blocked.out.Succeeded? {
        var tracked := Listener(env, blocked.w, Track, from, to, outputs[0].coins).w;
        var b, b', b'' := w.st.balances, blocked.w.st.balances, tracked.st.balances;
        ListenerSpares(env, blocked.w, Track, from, to, outputs[0].coins);
        AskSpares(env, tracked, from, outputs[1..]);
        SparesTransitive(env, b, b', b'', {});
        SparesTransitive(env, b, b'', AskForOutputs(env, tracked, from, outputs[1..]).w.st.balances, {});
      }
    }
  }

  lemma {:induction false} MintSpares(env: Env, w: World, sender: string, coin: Coin, to: string)
    requires env.Valid() && HandleMint(env, w, sender, coin, to).out.Succeeded?
    ensures Spares(env, w.st.balances, HandleMint(env, w, sender, coin, to).w.st.balances, {sender})
    decreases w.meter.Remaining(), 4
  {
    var minted := w.(st := MintCoins(env, w.st, coin));
    var recipient := env.codec.decode(if to == "" then sender else to).value;
    var sent := SendCoins(env, minted, env.factory, recipient, [coin]).w.st.balances;
    MintCoinsSpares(env, w.st, coin);
    SparesMore(env, w.st.balances, minted.st.balances, {}, {sender});
    SendSpares(env, minted, env.factory, recipient, [coin], {sender});
    SparesTransitive(env, w.st.balances, minted.st.balances, sent, {sender});
  }

  lemma {:induction false} BurnSpares(env: Env, w: World, sender: string, coin: Coin)
    requires env.Valid() && HandleBurn(env, w, sender, coin).out.Succeeded?
    ensures Spares(env, w.st.balances, HandleBurn(env, w, sender, coin).w.st.balances, {sender})
    decreases w.meter.Remaining(), 4
  {
    var from := env.codec.decode(sender).value;
    var taken := SendCoins(env, w, from, env.factory, [coin]).w.st;
    assert sender in {sender} && SpokenFor(env, {sender}, from);
    SendSpares(env, w, from, env.factory, [coin], {sender});
    BurnCoinsSpares(env, taken, coin);
    SparesMore(env, taken.balances, BurnCoins(env, taken, coin).value.balances, {}, {sender});
    SparesTransitive(env, w.st.balances, taken.balances, BurnCoins(env, taken, coin).value.balances, {sender});
  }

  lemma {:induction false} SendMessageSpares(env: Env, w: World, sender: string, recipient: string, coins: Coins)
    requires env.Valid() && !IsModule(env, sender) && HandleSend(env, w, sender, recipient, coins).out.Succeeded?
    ensures Spares(env, w.st.balances, HandleSend(env, w, sender, recipient, coins).w.st.balances, {sender})
    decreases w.meter.Remaining(), 4
  {
    var from := env.codec.decode(sender).value;
    assert sender in {sender} && SpokenFor(env, {sender}, from);
    SendSpares(env, w, from, env.codec.decode(recipient).value, coins, {sender});
  }

  lemma {:induction false} CreateDenomSpares(env: Env, w: World, sender: string, subdenom: string)
    requires env.Valid() && !IsModule(env, sender) && HandleCreateDenom(env, w, sender, subdenom).out.Succeeded?
    ensures Spares(env, w.st.balances, HandleCreateDenom(env, w, sender, subdenom).w.st.balances, {sender})
    decreases w.meter.Remaining(), 4
  {
    var from := env.codec.decode(sender).value;
    assert sender in {sender} && SpokenFor(env, {sender}, from);
    SendSpares(env, w, from, env.feeCollector, w.st.params.fee, {sender});
  }

  lemma {:induction false} MultiSendSpares(env: Env, w: World, inputs: seq<Party>, outputs: seq<Party>)
    requires env.Valid() && Authentic(env, MultiSend(inputs, outputs))
    requires HandleMultiSend(env, w, inputs, outputs).out.Succeeded?
    ensures Spares(env, w.st.balances, HandleMultiSend(env, w, inputs, outputs).w.st.balances,
                   Signers(MultiSend(inputs, outputs)))
    decreases w.meter.Remaining(), 4
  {
    var signers := Signers(MultiSend(inputs, outputs));
    var from := env.codec.decode(inputs[0].address).value;
    var asked := AskForOutputs(env, w, from, outputs).w.st.balances;
    assert inputs[0] in inputs && inputs[0].address in signers;
    assert SpokenFor(env, signers, from);
    AskSpares(env, w, from, outputs);
    SparesMore(env, w.st.balances, asked, {}, signers);
    DistributeSpares(env, asked, inputs[0], outputs, signers);
    SparesTransitive(env, w.st.balances, asked, Distribute(env.codec, asked, inputs[0], outputs).value, signers);
  }

  /** The messages that move no coins. */
  lemma OthersSpare(env: Env, w: World, msg: Msg)
    requires Handle(env, w, msg).out.Succeeded?
    requires msg.ChangeAdmin? || msg.SetDenomMetadata? || msg.SetBeforeSendHook?
    ensures Handle(env, w, msg).w.st.balances == w.st.balances
  {
    match msg
    case SetBeforeSendHook(sender, denom, contract) =>
      assert HandleSetHook(env, w, sender, denom, contract).out.Succeeded?;
    case ChangeAdmin(sender, denom, admin) =>
      assert AfterChangeAdmin(env, w.st, sender, denom, admin).Some?;
    case SetDenomMetadata(sender, md) =>
      assert AfterSetMetadata(env, w.st, sender, md).Some?;
  }

  lemma {:induction false} DeliverSpares(env: Env, w: World, msg: Msg)
    requires env.Valid()
    ensures Spares(env, w.st.balances, Deliver(env, w, msg).w.st.balances, Signers(msg))
    decreases w.meter.Remaining(), 5
  {
    if Handle(env, w, msg).out.Succeeded? {
      match msg
      case CreateDenom(sender, subdenom) => CreateDenomSpares(env, w, sender, subdenom);
      case Mint(sender, coin, to) => MintSpares(env, w, sender, coin, to);
      case Burn(sender, coin) => BurnSpares(env, w, sender, coin);
      case Send(sender, recipient, coins) => SendMessageSpares(env, w, sender, recipient, coins);
      case MultiSend(inputs, outputs) => MultiSendSpares(env, w, inputs, outputs);
      case _ => OthersSpare(env, w, msg);
    }
  }

  // ---------------------------------------------------------------------------
  // Runs
  // ---------------------------------------------------------------------------

  lemma {:induction false} ExecuteSpares(env: Env, st: State, calls: nat, txs: seq<Tx>, signers: set<string>)
    requires env.Valid() && Senders(txs) <= signers
    ensures Spares(env, st.balances, Execute(env, st, calls, txs).0.balances, signers)
    decreases |txs|
  {
    if txs != [] {
      var (st', calls') := Transact(env, st, calls, txs[0]);
      if txs[0].Tx? {
        var w := World(st, Meter(txs[0].gasLimit, 0), calls, 0, []);
        DeliverSpares(env, w, txs[0].msg);
        SparesMore(env, st.balances, st'.balances, Signers(txs[0].msg), signers);
      }
      assert Spares(env, st.balances, st'.balances, signers);
      ExecuteSpares(env, st', calls', txs[1..], signers);
      SparesTransitive(env, st.balances, st'.balances, Execute(env, st', calls', txs[1..]).0.balances, signers);
    }
  }

  /** In every run, whatever hooks do, the balance of an account falls only if the
      account signed one of the transactions, or lets contracts sign for it. That of
      a module account never falls. */
  lemma OnlySignersPay(env: Env, st: State, calls: nat, txs: seq<Tx>, a: Address, d: string)
    requires env.Valid()
    requires Balance(Execute(env, st, calls, txs).0.balances, a, d) < Balance(st.balances, a, d)
    ensures a !in env.modules
    ensures env.delegates(a) || exists s :: s in Senders(txs) && env.codec.decode(s) == Some(a)
  {
    ExecuteSpares(env, st, calls, txs, Senders(txs));
    RunsLeaveFactoryEmpty(env, st, calls, txs, d);
  }
}
