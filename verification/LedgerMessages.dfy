/** What each message does, in terms of what it says: exactly when it is accepted,
    and all that it changes then. Where hooks run, the change is told relative to
    the state that they leave.
  */
module LedgerMessages {
  import opened Options
  import opened Denoms
  import opened Bank
  import opened Ledger
  import opened LedgerLaws
  import opened LedgerNest
  import opened LedgerTheorems
  import opened LedgerCreation
  import opened LedgerEffects

  /** The string denotes an account that is not a module's. */
  predicate Person(env: Env, s: string) {
    env.codec.decode(s).Some? && env.codec.decode(s).value !in env.modules
  }

  /** `from` has lost these coins and `to` has gained them; nothing else is changed. */
  ghost predicate Moves(b: Balances, b': Balances, from: Address, to: Address, coins: Coins) {
    forall x, d :: Balance(b', x, d) == Balance(b, x, d)
                                        - (if x == from then AmountOf(coins, d) else 0)
                                        + (if x == to then AmountOf(coins, d) else 0)
  }

  /** `to` is `from` but for the balances, among which coins have moved. */
  ghost predicate OnlyMoves(w: World, w': World, from: Address, to: Address, coins: Coins) {
    w' == w.(st := w.st.(balances := w'.st.balances)) && Moves(w.st.balances, w'.st.balances, from, to, coins)
  }

  // ---------------------------------------------------------------------------
  // Hooks
  // ---------------------------------------------------------------------------

  /** The first coin's turn. Its hook is asked about this coin and this transfer, and
      the next coin comes only if it has no objection. A hook that is no address
      counts as one, and a coin without a hook is passed over. */
  lemma ListenerByCoin(env: Env, w: World, kind: Kind, from: Address, to: Address, coins: Coins)
    requires coins != []
    ensures var d := coins[0].denom;
            var l := Listener(env, w, kind, from, to, coins);
            if d !in w.st.hooks || w.st.hooks[d] == "" then l == Listener(env, w, kind, from, to, coins[1..])
            else if env.codec.decode(w.st.hooks[d]).None? then l == Run(w, Failed)
            else
              var asked := CallHook(env, w, kind, w.st.hooks[d], from, to, coins[0]);
              && asked.w.trace[|asked.w.trace| - 1] ==
                   Call(kind, w.st.hooks[d], from, to, coins[0], asked.out.Succeeded?)
              && l == if asked.out.Succeeded? then Listener(env, asked.w, kind, from, to, coins[1..])
                      else Run(asked.w, Failed)
  {
  }

  /** A hook may spend up to 500,000 units of gas, or what its caller has left. What
      it spends within that is charged; if it wants more, all of that is charged, and
      the call fails. */
  lemma HookSpends(env: Env, w: World, kind: Kind, contract: string, from: Address, to: Address, coin: Coin, gas: nat)
    requires env.react(w.calls) == Reaction(1, [Spend(gas)], Returns) && !w.meter.Exhausted()
    ensures var r := CallHook(env, w, kind, contract, from, to, coin);
            var left := w.meter.limit - w.meter.consumed;
            var most := if left <= 500_000 then left else 500_000;
            && r.w.st == w.st
            && (r.out.Succeeded? <==> 1 + gas <= most)
            && r.w.meter == Meter(w.meter.limit, w.meter.consumed + if 1 + gas <= most then 1 + gas else most)
  {
    var acts := [Spend(gas)];
    var limit := Min(w.meter.Remaining(), HOOK_GAS_LIMIT);
    var child := w.(meter := Meter(limit, 0), calls := w.calls + 1, metered := Counted(w.metered, limit));
    var entered := child.(meter := child.meter.Plus(1));
    var spent := entered.(meter := entered.meter.Plus(gas));
    assert acts[1..] == [] && RunActs(env, spent, []) == Run(spent, Succeeded);
    assert RunActs(env, entered, acts) == Run(spent, if spent.meter.Exhausted() then Panicked else Succeeded);
  }

  /** A message that a contract dispatches takes effect as if it had been delivered,
      and the contract goes on whether it was accepted or not, unless it panicked. */
  lemma DispatchDelivers(env: Env, w: World, msg: Msg, rest: seq<Act>)
    requires Signable(env, msg)
    ensures var r := Deliver(env, w, msg);
            RunActs(env, w, [Dispatch(msg)] + rest) == if r.out.Panicked? then r else RunActs(env, r.w, rest)
  {
    assert ([Dispatch(msg)] + rest)[1..] == rest;
  }

  // ---------------------------------------------------------------------------
  // Sends
  // ---------------------------------------------------------------------------

  lemma SendCoinsMoves(env: Env, w: World, from: Address, to: Address, coins: Coins)
    requires SendCoins(env, w, from, to, coins).out.Succeeded?
    ensures OnlyMoves(Asked(env, w, from, to, coins), SendCoins(env, w, from, to, coins).w, from, to, coins)
  {
    TransferEffect(Asked(env, w, from, to, coins).st.balances, from, to, coins);
  }

  /** Between module accounts: the coins move on the state that tracking leaves. */
  lemma UnblockedMoves(env: Env, w: World, from: Address, to: Address, coins: Coins)
    requires SendWithoutBlockHook(env, w, from, to, coins).out.Succeeded?
    ensures OnlyMoves(Listener(env, w, Track, from, to, coins).w, SendWithoutBlockHook(env, w, from, to, coins).w,
                      from, to, coins)
  {
    TransferEffect(Listener(env, w, Track, from, to, coins).w.st.balances, from, to, coins);
  }

  predicate AllEnabled(env: Env, coins: Coins) {
    forall k :: 0 <= k < |coins| ==> env.sendEnabled(coins[k].denom)
  }

  predicate MaySend(env: Env, sender: string, recipient: string, coins: Coins) {
    && Person(env, sender) && Person(env, recipient)
    && ValidCoins(coins) && coins != [] && AllEnabled(env, coins)
  }

  /** A send is accepted exactly if both are accounts but no modules, the coins are
      valid and may be sent, no hook objects, and the sender has them on the state
      that the hooks leave. Then they move there from sender to recipient. */
  lemma SendDelivered(env: Env, w: World, sender: string, recipient: string, coins: Coins)
    ensures var r := Deliver(env, w, Send(sender, recipient, coins));
            && (r.out.Succeeded? <==>
                  && MaySend(env, sender, recipient, coins)
                  && var from, to := env.codec.decode(sender).value, env.codec.decode(recipient).value;
                  && Listener(env, w, Block, from, to, coins).out.Succeeded?
                  && Covers(Asked(env, w, from, to, coins).st.balances, from, coins))
            && (r.out.Succeeded? ==>
                  var from, to := env.codec.decode(sender).value, env.codec.decode(recipient).value;
                  OnlyMoves(Asked(env, w, from, to, coins), r.w, from, to, coins))
            && (!r.out.Succeeded? ==> r.w.st == w.st)
  {
    var r := Handle(env, w, Send(sender, recipient, coins));
    if MaySend(env, sender, recipient, coins) {
      var from, to := env.codec.decode(sender).value, env.codec.decode(recipient).value;
      assert r == HandleSend(env, w, sender, recipient, coins) == SendCoins(env, w, from, to, coins);
      SendSucceedsIff(env, w, from, to, coins);
      if r.out.Succeeded? {
        SendCoinsMoves(env, w, from, to, coins);
      }
    } else {
      SendRefused(env, w, sender, recipient, coins);
    }
  }

  lemma SendRefused(env: Env, w: World, sender: string, recipient: string, coins: Coins)
    requires !MaySend(env, sender, recipient, coins)
    ensures !Handle(env, w, Send(sender, recipient, coins)).out.Succeeded?
  {
    if Person(env, sender) && Person(env, recipient) && ValidCoins(coins) && coins != [] {
      var k :| 0 <= k < |coins| && !env.sendEnabled(coins[k].denom);
    }
  }

  /** Without hooks, on the state as it is. */
  lemma PlainSend(env: Env, w: World, sender: string, recipient: string, coins: Coins)
    requires Unhooked(w.st, coins)
    ensures var r := Deliver(env, w, Send(sender, recipient, coins));
            && (r.out.Succeeded? <==>
                  && MaySend(env, sender, recipient, coins)
                  && Covers(w.st.balances, env.codec.decode(sender).value, coins))
            && (r.out.Succeeded? ==>
                  OnlyMoves(w, r.w, env.codec.decode(sender).value, env.codec.decode(recipient).value, coins))
  {
    SendDelivered(env, w, sender, recipient, coins);
    if MaySend(env, sender, recipient, coins) {
      var from, to := env.codec.decode(sender).value, env.codec.decode(recipient).value;
      UnhookedListener(env, w, Block, from, to, coins);
      UnhookedListener(env, w, Track, from, to, coins);
    }
  }

  // Multi-sends -----------------------------------------------------------------

  /** An address with some valid coins. */
  predicate Offers(env: Env, p: Party) {
    env.codec.decode(p.address).Some? && ValidCoins(p.coins) && p.coins != []
  }

  predicate AllOffer(env: Env, parties: seq<Party>) {
    forall k :: 0 <= k < |parties| ==> Offers(env, parties[k])
  }

  /** What goes in comes out, in every denom. */
  ghost predicate Tallies(coins: Coins, outputs: seq<Party>) {
    forall d :: AmountOf(coins, d) == TotalOf(outputs, d)
  }

  ghost predicate MayMultiSend(env: Env, inputs: seq<Party>, outputs: seq<Party>) {
    && |inputs| == 1 && outputs != [] && Person(env, inputs[0].address)
    && Offers(env, inputs[0]) && AllOffer(env, outputs) && Tallies(inputs[0].coins, outputs)
    && AllEnabled(env, inputs[0].coins)
  }

  lemma OffersIff(env: Env, p: Party)
    ensures Offers(env, p) <==> ValidParty(env.codec, p)
  {
  }

  lemma InputOutputsIff(env: Env, input: Party, outputs: seq<Party>)
    ensures ValidInputOutputs(env.codec, input, outputs) <==>
              Offers(env, input) && AllOffer(env, outputs) && Tallies(input.coins, outputs)
  {
    OffersIff(env, input);
    if ValidInputOutputs(env.codec, input, outputs) {
      forall k | 0 <= k < |outputs| ensures Offers(env, outputs[k]) {
        OffersIff(env, outputs[k]);
      }
      forall d ensures AmountOf(input.coins, d) == TotalOf(outputs, d) {
        InputIsOutput(env.codec, input, outputs, d);
      }
    }
    if Offers(env, input) && AllOffer(env, outputs) && Tallies(input.coins, outputs) {
      forall k | 0 <= k < |outputs| ensures ValidParty(env.codec, outputs[k]) {
        OffersIff(env, outputs[k]);
      }
    }
  }

  /** A multi-send is accepted exactly if there is one input, which is an account but
      no module, all parties are valid and what goes in comes out, the coins may be
      sent, every output passes, and the sender has the coins on the state that the
      hooks leave. */
  lemma MultiSendDelivered(env: Env, w: World, inputs: seq<Party>, outputs: seq<Party>)
    ensures var r := Deliver(env, w, MultiSend(inputs, outputs));
            && (r.out.Succeeded? <==>
                  && MayMultiSend(env, inputs, outputs)
                  && var from := env.codec.decode(inputs[0].address).value;
                  && AskForOutputs(env, w, from, outputs).out.Succeeded?
                  && Covers(AskForOutputs(env, w, from, outputs).w.st.balances, from, inputs[0].coins))
            && (r.out.Succeeded? ==>
                  var from := env.codec.decode(inputs[0].address).value;
                  var asked := AskForOutputs(env, w, from, outputs).w;
                  && r.w == asked.(st := asked.st.(balances := r.w.st.balances))
                  && forall x, d :: Balance(r.w.st.balances, x, d)
                                    == Balance(asked.st.balances, x, d)
                                       - (if x == from then AmountOf(inputs[0].coins, d) else 0)
                                       + Receives(env.codec, outputs, x, d))
            && (!r.out.Succeeded? ==> r.w.st == w.st)
  {
    var msg := MultiSend(inputs, outputs);
    if |inputs| == 1 {
      InputOutputsIff(env, inputs[0], outputs);
    }
    if MayMultiSend(env, inputs, outputs) {
      var from := env.codec.decode(inputs[0].address).value;
      var asked := AskForOutputs(env, w, from, outputs);
      assert Authentic(env, msg);
      assert Handle(env, w, msg) == HandleMultiSend(env, w, inputs, outputs);
      DistributeEffect(env.codec, asked.w.st.balances, inputs[0], outputs);
    } else {
      MultiSendRefused(env, w, inputs, outputs);
    }
  }

  lemma MultiSendRefused(env: Env, w: World, inputs: seq<Party>, outputs: seq<Party>)
    requires !MayMultiSend(env, inputs, outputs)
    ensures !Handle(env, w, MultiSend(inputs, outputs)).out.Succeeded?
  {
    if |inputs| == 1 {
      InputOutputsIff(env, inputs[0], outputs);
      if Person(env, inputs[0].address) && outputs != [] && ValidInputOutputs(env.codec, inputs[0], outputs) {
        assert !AllEnabled(env, inputs[0].coins);
      }
    }
  }

  /** Every output passes exactly if each is an account but no module, and at its
      turn no hook objects. */
  lemma {:induction false} OutputsPassIff(env: Env, w: World, from: Address, outputs: seq<Party>)
    requires outputs != []
    ensures AskForOutputs(env, w, from, outputs).out.Succeeded? <==>
              && Person(env, outputs[0].address)
              && var to, coins := env.codec.decode(outputs[0].address).value, outputs[0].coins;
              && Listener(env, w, Block, from, to, coins).out.Succeeded?
              && AskForOutputs(env, Asked(env, w, from, to, coins), from, outputs[1..]).out.Succeeded?
  {
    if Person(env, outputs[0].address) {
      var to, coins := env.codec.decode(outputs[0].address).value, outputs[0].coins;
      assert Listener(env, w, Block, from, to, coins).out.Succeeded? ==>
          AskForOutputs(env, w, from, outputs) ==
          AskForOutputs(env, Asked(env, w, from, to, coins), from, outputs[1..]);
    }
  }

  // ---------------------------------------------------------------------------
  // Minting and burning
  // ---------------------------------------------------------------------------

  /** The bank has put the new coin into the factory's account. */
  lemma MintedState(env: Env, st: State, coin: Coin)
    requires coin.amount > 0
    ensures var st' := MintCoins(env, st, coin);
            && st' == st.(balances := st'.balances, supply := st'.supply)
            && Gains(st.balances, st'.balances, env.factory, coin.denom, coin.amount)
            && SupplyGains(st, st', coin.denom, coin.amount)
  {
    AddCoinsEffect(st.balances, env.factory, [coin]);
    forall d ensures AmountOf([coin], d) == Part(coin, d) {
      PartIsAmount(coin, d);
    }
  }

  function WithMinted(env: Env, w: World, coin: Coin): World {
    if coin.amount > 0 then w.(st := MintCoins(env, w.st, coin)) else w
  }

  /** A mint is accepted exactly if its sender is a person and the admin, its coin is
      valid and of a factory denom with metadata, its recipient is a person, and no
      hook objects. Once the hooks are done, the coin moves from the factory's
      account to the recipient, who is the sender if none is named, and the mint is
      recorded. */
  lemma MintDelivered(env: Env, w: World, sender: string, coin: Coin, to: string)
    requires env.Valid()
    ensures var r := Deliver(env, w, Mint(sender, coin, to));
            var minted := WithMinted(env, w, coin);
            var named := if to == "" then sender else to;
            && (r.out.Succeeded? <==>
                  && Person(env, sender) && ValidDenom(coin.denom) && coin.amount > 0
                  && coin.denom in w.st.metadata && coin.denom in w.st.admins && w.st.admins[coin.denom] == sender
                  && DeconstructDenom(env.codec, coin.denom).Good?
                  && Person(env, named)
                  && Listener(env, minted, Block, env.factory, env.codec.decode(named).value, [coin]).out.Succeeded?)
            && (r.out.Succeeded? ==>
                  var recipient := env.codec.decode(named).value;
                  var asked := Asked(env, minted, env.factory, recipient, [coin]);
                  && r.w == asked.(st := asked.st.(balances := r.w.st.balances, journal := r.w.st.journal))
                  && r.w.st.journal == asked.st.journal + [Entry(sender, |w.st.journal|, Minted(coin))]
                  && Moves(asked.st.balances, r.w.st.balances, env.factory, recipient, [coin]))
            && (!r.out.Succeeded? ==> r.w.st == w.st)
  {
    var msg := Mint(sender, coin, to);
    MintCompletes(env, w, sender, coin, to);
    if Authentic(env, msg) {
      assert Handle(env, w, msg) == HandleMint(env, w, sender, coin, to);
      if MayMint(env, w.st, sender, coin, to) {
        var recipient := RecipientOf(env, sender, to).value;
        var minted := w.(st := MintCoins(env, w.st, coin));
        if SendCoins(env, minted, env.factory, recipient, [coin]).out.Succeeded? {
          SendCoinsMoves(env, minted, env.factory, recipient, [coin]);
        }
      }
    }
  }

  /** The coin has gone from the account into the factory's, and from there. */
  lemma BurnedState(env: Env, st: State, from: Address, coin: Coin)
    requires ValidCoin(coin) && from != env.factory && Transfer(st.balances, from, env.factory, [coin]).Some?
    requires BurnCoins(env, Taken(env, st, from, coin), coin).Some?
    ensures var st' := BurnCoins(env, Taken(env, st, from, coin), coin).value;
            && st' == st.(balances := st'.balances, supply := st'.supply)
            && Gains(st.balances, st'.balances, from, coin.denom, -coin.amount)
            && SupplyGains(st, st', coin.denom, -coin.amount)
  {
    BurnLoses(env, st, from, coin);
    BurnCoinsWithdraws(env, Taken(env, st, from, coin), coin);
  }

  /** A burn is accepted exactly if its sender is a person and the admin, its coin is
      valid and of a factory denom, no hook objects, and the sender has the coin on
      the state that the hooks leave. There sender and supply lose it, and the burn
      is recorded. */
  lemma BurnDelivered(env: Env, w: World, sender: string, coin: Coin)
    requires env.Valid() && Balanced(w.st)
    ensures var r := Deliver(env, w, Burn(sender, coin));
            && (r.out.Succeeded? <==>
                  && Person(env, sender) && ValidDenom(coin.denom) && coin.amount > 0
                  && coin.denom in w.st.admins && w.st.admins[coin.denom] == sender
                  && DeconstructDenom(env.codec, coin.denom).Good?
                  && var from := env.codec.decode(sender).value;
                  && Listener(env, w, Block, from, env.factory, [coin]).out.Succeeded?
                  && coin.amount <= Balance(Asked(env, w, from, env.factory, [coin]).st.balances, from, coin.denom))
            && (r.out.Succeeded? ==>
                  var from := env.codec.decode(sender).value;
                  var asked := Asked(env, w, from, env.factory, [coin]);
                  && r.w == asked.(st := asked.st.(balances := r.w.st.balances, supply := r.w.st.supply,
                                                   journal := r.w.st.journal))
                  && r.w.st.journal == asked.st.journal + [Entry(sender, |w.st.journal|, Burned(coin))]
                  && Gains(asked.st.balances, r.w.st.balances, from, coin.denom, -coin.amount)
                  && SupplyGains(asked.st, r.w.st, coin.denom, -coin.amount))
            && (!r.out.Succeeded? ==> r.w.st == w.st)
  {
    var msg := Burn(sender, coin);
    BurnCompletes(env, w, sender, coin);
    if Authentic(env, msg) {
      assert Handle(env, w, msg) == HandleBurn(env, w, sender, coin);
      if MayBurn(env, w.st, sender, coin) {
        var from := env.codec.decode(sender).value;
        var asked := Asked(env, w, from, env.factory, [coin]);
        SendSucceedsIff(env, w, from, env.factory, [coin]);
        CoversOne(asked.st.balances, from, coin);
        if HandleBurn(env, w, sender, coin).out.Succeeded? {
          BurnedState(env, asked.st, from, coin);
        }
      }
    }
  }

  // ---------------------------------------------------------------------------
  // Creating denoms
  // ---------------------------------------------------------------------------

  predicate MayCreate(env: Env, st: State, sender: string, subdenom: string) {
    var denom := FactoryDenom(sender, subdenom);
    && Person(env, sender) && subdenom !in st.supply
    && |subdenom| <= 44 && |sender| <= 75 && '/' !in sender && ValidDenom(denom)
    && denom !in st.metadata
  }

  lemma MayCreateIff(env: Env, st: State, sender: string, subdenom: string)
    requires env.Valid() && Person(env, sender)
    ensures MayCreate(env, st, sender, subdenom) <==> NewDenom(env, st, sender, subdenom).Some?
    ensures MayCreate(env, st, sender, subdenom) ==>
              NewDenom(env, st, sender, subdenom) == Some(FactoryDenom(sender, subdenom))
  {
  }

  /** A creation is accepted exactly if its sender is a person, name and length are in
      order, the denom has no metadata and the subdenom is no denom itself, no hook
      of the fee objects, the sender has the fee on the state that the hooks leave,
      and there is gas for it. There the fee moves to the fee collector, and the
      denom is recorded with its sender as admin and creator. */
  lemma CreateDelivered(env: Env, w: World, sender: string, subdenom: string)
    requires env.Valid()
    ensures var r := Deliver(env, w, CreateDenom(sender, subdenom));
            var fee, gas, to := w.st.params.fee, w.st.params.gas, env.feeCollector;
            var denom := FactoryDenom(sender, subdenom);
            && (r.out.Succeeded? <==>
                  && MayCreate(env, w.st, sender, subdenom)
                  && var payer := env.codec.decode(sender).value;
                  && Listener(env, w, Block, payer, to, fee).out.Succeeded?
                  && ValidCoins(fee) && Covers(Asked(env, w, payer, to, fee).st.balances, payer, fee)
                  && Asked(env, w, payer, to, fee).meter.consumed + gas <= w.meter.limit)
            && (r.out.Succeeded? ==>
                  var payer := env.codec.decode(sender).value;
                  var asked := Asked(env, w, payer, to, fee);
                  && Moves(asked.st.balances, r.w.st.balances, payer, to, fee)
                  && r.w == asked.(meter := asked.meter.Plus(gas), st := r.w.st)
                  && r.w.st == asked.st.(
                       balances := r.w.st.balances,
                       admins := asked.st.admins[denom := sender],
                       creators := asked.st.creators + {(sender, denom)},
                       metadata := if denom in asked.st.metadata then asked.st.metadata
                                   else asked.st.metadata[denom := Metadata(denom, denom, denom, denom, [(denom, 0)])],
                       journal := asked.st.journal + [Entry(sender, |w.st.journal|, Created(denom))]))
            && (!r.out.Succeeded? ==> r.w.st == w.st)
  {
    var msg := CreateDenom(sender, subdenom);
    if Person(env, sender) {
      MayCreateIff(env, w.st, sender, subdenom);
      var payer, fee, to := env.codec.decode(sender).value, w.st.params.fee, env.feeCollector;
      assert Handle(env, w, msg) == HandleCreateDenom(env, w, sender, subdenom);
      SendSucceedsIff(env, w, payer, to, fee);
      if SendCoins(env, w, payer, to, fee).out.Succeeded? {
        SendCoinsMoves(env, w, payer, to, fee);
      }
    } else {
      CreateRefused(env, w, sender, subdenom);
    }
  }

  lemma CreateRefused(env: Env, w: World, sender: string, subdenom: string)
    requires !Person(env, sender)
    ensures !Handle(env, w, CreateDenom(sender, subdenom)).out.Succeeded?
  {
    if !IsModule(env, sender) {
      assert NewDenom(env, w.st, sender, subdenom) == None;
      assert Handle(env, w, CreateDenom(sender, subdenom)) == HandleCreateDenom(env, w, sender, subdenom);
    }
  }

  // ---------------------------------------------------------------------------
  // Admins, metadata, hooks, parameters
  // ---------------------------------------------------------------------------

  predicate AdminOf(env: Env, st: State, sender: string, denom: string) {
    && Person(env, sender) && DeconstructDenom(env.codec, denom).Good?
    && denom in st.admins && st.admins[denom] == sender
  }

  /** A change of admin is accepted exactly if its sender is the admin and the new one
      is an address or empty; then the new admin is the one named. */
  lemma ChangeAdminDelivered(env: Env, w: World, sender: string, denom: string, admin: string)
    ensures var r := Deliver(env, w, ChangeAdmin(sender, denom, admin));
            && (r.out.Succeeded? <==>
                  AdminOf(env, w.st, sender, denom) && (admin == "" || env.codec.decode(admin).Some?))
            && (r.out.Succeeded? ==>
                  r.w == w.(st := w.st.(
                           admins := w.st.admins[denom := admin],
                           journal := w.st.journal + [Entry(sender, |w.st.journal|, AdminSet(denom, admin))])))
            && (!r.out.Succeeded? ==> r.w == w)
  {
  }

  /** A change of metadata is accepted exactly if its sender is the admin and the
      metadata are valid; then the denom has these. */
  lemma SetMetadataDelivered(env: Env, w: World, sender: string, md: Metadata)
    requires env.Valid()
    ensures var r := Deliver(env, w, SetDenomMetadata(sender, md));
            && (r.out.Succeeded? <==> AdminOf(env, w.st, sender, md.base) && env.validMetadata(md))
            && (r.out.Succeeded? ==>
                  r.w == w.(st := w.st.(metadata := w.st.metadata[md.base := md],
                                        journal := w.st.journal + [Entry(sender, |w.st.journal|, MetadataSet(md))])))
            && (!r.out.Succeeded? ==> r.w == w)
  {
  }

  /** Removing a hook is accepted exactly if its sender is the admin. */
  lemma UnsetHookDelivered(env: Env, w: World, sender: string, denom: string)
    requires env.Valid()
    ensures var r := Deliver(env, w, SetBeforeSendHook(sender, denom, ""));
            && (r.out.Succeeded? <==> AdminOf(env, w.st, sender, denom))
            && (r.out.Succeeded? ==>
                  r.w == w.(st := w.st.(hooks := w.st.hooks - {denom},
                                        journal := w.st.journal + [Entry(sender, |w.st.journal|, HookSet(denom, ""))])))
            && (!r.out.Succeeded? ==> r.w == w)
  {
    var msg := SetBeforeSendHook(sender, denom, "");
    if IsModule(env, sender) {
      assert Handle(env, w, msg) == Run(w, Failed);
    } else {
      assert Handle(env, w, msg) == HandleSetHook(env, w, sender, denom, "");
      if AdminOf(env, w.st, sender, denom) {
        var st' := AfterSetHook(w.st, sender, denom, "");
        assert HandleSetHook(env, w, sender, denom, "") == Run(w.(st := st'), Succeeded);
      } else {
        assert HandleSetHook(env, w, sender, denom, "") == Run(w, Failed);
      }
    }
  }

  /** The trial call of a contract before it becomes a hook. */
  function Trial(env: Env, w: World): Run {
    RunContract(env, w.(calls := w.calls + 1, metered := Counted(w.metered, w.meter.Remaining())), env.react(w.calls))
  }

  /** Setting a hook is accepted exactly if its sender is the admin, the contract is
      an address, and the trial neither runs out of gas nor finds no contract there;
      any other error of the contract is no obstacle. Nothing that the trial wrote
      is kept. */
  lemma SetHookDelivered(env: Env, w: World, sender: string, denom: string, contract: string)
    requires env.Valid() && contract != ""
    ensures var r := Deliver(env, w, SetBeforeSendHook(sender, denom, contract));
            && (r.out.Succeeded? <==>
                  && AdminOf(env, w.st, sender, denom) && env.codec.decode(contract).Some?
                  && !Trial(env, w).out.Panicked?
                  && !(Trial(env, w).out.Failed? && env.react(w.calls).ending == Errors(true)))
            && (r.out.Succeeded? ==>
                  r.w == Trial(env, w).w.(
                           st := w.st.(
                             hooks := w.st.hooks[denom := contract],
                             journal := w.st.journal + [Entry(sender, |w.st.journal|, HookSet(denom, contract))])))
            && (!r.out.Succeeded? ==> r.w.st == w.st)
  {
    var msg := SetBeforeSendHook(sender, denom, contract);
    if IsModule(env, sender) {
      assert Handle(env, w, msg) == Run(w, Failed);
    } else {
      assert Handle(env, w, msg) == HandleSetHook(env, w, sender, denom, contract);
      if !AdminOf(env, w.st, sender, denom) || env.codec.decode(contract).None? {
        assert HandleSetHook(env, w, sender, denom, contract) == Run(w, Failed);
      }
    }
  }

  /** Only the authority sets parameters, and only with a valid fee; then they are
      the ones given. */
  lemma ParamsTransacted(env: Env, st: State, calls: nat, sender: string, params: Params)
    ensures Transact(env, st, calls, UpdateParams(sender, params)) ==
              (if sender == env.authority && ValidCoins(params.fee) then st.(params := params) else st, calls)
  {
  }

  // ---------------------------------------------------------------------------
  // The journal says what messages say
  // ---------------------------------------------------------------------------

  /** What a message says is to be done. */
  function DeedOf(msg: Msg): Option<Deed> {
    match msg
    case CreateDenom(sender, subdenom) => Some(Created(FactoryDenom(sender, subdenom)))
    case Mint(_, coin, _) => Some(Minted(coin))
    case Burn(_, coin) => Some(Burned(coin))
    case ChangeAdmin(_, denom, admin) => Some(AdminSet(denom, admin))
    case SetDenomMetadata(_, md) => Some(MetadataSet(md))
    case SetBeforeSendHook(_, denom, contract) => Some(HookSet(denom, contract))
    case Send(_, _, _) => None
    case MultiSend(_, _) => None
  }

  /** The last entry that an accepted message adds is its own: its sender, checked
      where the message began, and what it says is to be done. */
  lemma DeedIsTheMessages(env: Env, w: World, msg: Msg)
    requires env.Valid() && Deliver(env, w, msg).out.Succeeded? && DeedOf(msg).Some?
    ensures var journal := Deliver(env, w, msg).w.st.journal;
            journal != [] && journal[|journal| - 1] == Entry(msg.sender, |w.st.journal|, DeedOf(msg).value)
  {
    match msg
    case CreateDenom(sender, subdenom) => CreateDelivered(env, w, sender, subdenom);
    case Mint(sender, coin, to) => MintDelivered(env, w, sender, coin, to);
    case Burn(sender, coin) => assert Deliver(env, w, msg) == HandleBurn(env, w, sender, coin);
    case ChangeAdmin(sender, denom, admin) => ChangeAdminDelivered(env, w, sender, denom, admin);
    case SetDenomMetadata(sender, md) => SetMetadataDelivered(env, w, sender, md);
    case SetBeforeSendHook(sender, denom, contract) =>
      if contract == "" {
        UnsetHookDelivered(env, w, sender, denom);
      } else {
        SetHookDelivered(env, w, sender, denom, contract);
      }
  }

  // ---------------------------------------------------------------------------
  // Transactions
  // ---------------------------------------------------------------------------

  /** A transaction starts no more hook calls than its gas limit has units, and never
      exhausts a meter unless it panics. */
  lemma CallsWithinGas(env: Env, st: State, calls: nat, msg: Msg, gasLimit: nat)
    ensures var r := Deliver(env, World(st, Meter(gasLimit, 0), calls, 0, []), msg);
            && r.w.metered <= gasLimit
            && (!r.out.Panicked? ==> r.w.meter.consumed <= gasLimit)
            && Transact(env, st, calls, Tx(msg, gasLimit)) == (r.w.st, r.w.calls)
  {
  }

  /** Transactions take effect one after the other. */
  lemma {:induction false} RunsInTurn(env: Env, st: State, calls: nat, a: seq<Tx>, b: seq<Tx>)
    ensures var (st', calls') := Execute(env, st, calls, a);
            Execute(env, st, calls, a + b) == Execute(env, st', calls', b)
    ensures |b| == 1 ==>
              var (st', calls') := Execute(env, st, calls, a);
              Execute(env, st, calls, a + b) == Transact(env, st', calls', b[0])
    decreases |a|
  {
    if a == [] {
      assert a + b == b;
      if |b| == 1 {
        var (st', calls') := Transact(env, st, calls, b[0]);
        assert Execute(env, st', calls', b[1..]) == (st', calls');
      }
    } else {
      var (st', calls') := Transact(env, st, calls, a[0]);
      assert (a + b)[1..] == a[1..] + b;
      RunsInTurn(env, st', calls', a[1..], b);
    }
  }
}
