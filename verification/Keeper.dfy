/** The keepers and message servers as they run: handlers that check, call hooks and
    then update the stores in place. Every method is proved to do exactly what the
    function of the same purpose in module Ledger says, so that the laws of modules
    LedgerNest and LedgerTheorems are laws of this code.
  */
module Keeper {
  import opened Denoms
  import opened Bank
  import opened Ledger

  class Keepers {
    const env: Env

    // The stores of the bank and of the token factory.
    var balances: Balances
    var supply: map<string, nat>
    var metadata: map<string, Metadata>
    var admins: map<string, string>
    var creators: set<(string, string)>
    var hooks: map<string, string>
    var params: Params

    // The gas meter of the current context, and the number of contract calls made.
    var meter: Meter
    var calls: nat

    // History, which no decision depends on.
    var journal: seq<Entry>
    var metered: nat
    var trace: seq<Call>

    function Stores(): State
      reads this
    {
      State(balances, supply, metadata, admins, creators, hooks, params, journal)
    }

    function Now(): World
      reads this
    {
      World(Stores(), meter, calls, metered, trace)
    }

    constructor (env: Env, params: Params, meter: Meter)
      ensures this.env == env
      ensures Now() == World(State(map[], map[], map[], map[], {}, map[], params, []), meter, 0, 0, [])
    {
      this.env, this.params, this.meter := env, params, meter;
      balances, supply, metadata, admins, creators, hooks := map[], map[], map[], map[], {}, map[];
      calls, journal, metered, trace := 0, [], 0, [];
    }

    // -------------------------------------------------------------------------
    // Contract calls
    // -------------------------------------------------------------------------

    // What a contract does while it runs: it spends gas and dispatches messages.
    method RunActs(acts: seq<Act>) returns (out: Outcome)
      modifies this
      ensures Run(Now(), out) == Ledger.RunActs(env, old(Now()), acts)
      decreases meter.Remaining(), 6, |acts| + 1
    {
      var k := 0;
      while k < |acts|
        invariant 0 <= k <= |acts|
        invariant meter.Remaining() <= old(meter.Remaining())
        invariant Ledger.RunActs(env, old(Now()), acts) == Ledger.RunActs(env, Now(), acts[k..])
        decreases |acts| - k
      {
        assert acts[k..][1..] == acts[k + 1..];
        match acts[k] {
          case Spend(gas) =>
            meter := meter.Plus(gas);
            if meter.Exhausted() {
              return Panicked;
            }
          case Dispatch(msg) =>
            if Signable(env, msg) {
              out := Deliver(msg);
              if out.Panicked? {
                return;
              }
            }
        }
        k := k + 1;
      }
      return Succeeded;
    }

    method RunContract(reaction: Reaction) returns (out: Outcome)
      modifies this
      ensures Run(Now(), out) == Ledger.RunContract(env, old(Now()), reaction)
      decreases meter.Remaining(), 0, 1
    {
      meter := meter.Plus(reaction.entry);
      if meter.Exhausted() {
        return Panicked;
      }
      out := RunActs(reaction.acts);
      if out.Succeeded? {
        match reaction.ending
        case Returns =>
        case Errors(_) => out := Failed;
        case Panics => out := Panicked;
      }
    }

    // The next contract call of the run, on the given meter.
    method StartCall(on: Meter) returns (reaction: Reaction)
      modifies this
      ensures reaction == env.react(old(calls))
      ensures Now() == old(Now()).(meter := on, calls := old(calls) + 1,
                                   metered := Counted(old(metered), on.Remaining()))
    {
      reaction := env.react(calls);
      calls := calls + 1;
      meter := on;
      metered := Counted(metered, on.Remaining());
    }

    // A call on a meter of its own, charged to the caller's meter at the end.
    method SafeSudo(kind: Kind, contract: string, from: Address, to: Address, coin: Coin)
      returns (out: Outcome)
      modifies this
      ensures Run(Now(), out) == CallHook(env, old(Now()), kind, contract, from, to, coin)
      decreases meter.Remaining(), 1, 0
    {
      var parent := meter;
      var reaction := StartCall(Meter(Min(meter.Remaining(), HOOK_GAS_LIMIT), 0));
      out := RunContract(reaction);
      meter := parent.Plus(meter.ConsumedToLimit());
      if meter.Exhausted() {
        out := Panicked;
      }
      trace := trace + [Call(kind, contract, from, to, coin, out.Succeeded?)];
    }

    method CallBeforeSendListener(kind: Kind, from: Address, to: Address, amount: Coins)
      returns (out: Outcome)
      modifies this
      ensures Run(Now(), out) == Listener(env, old(Now()), kind, from, to, amount)
      decreases meter.Remaining(), 2, |amount| + 1
    {
      var k := 0;
      while k < |amount|
        invariant 0 <= k <= |amount|
        invariant meter.Remaining() <= old(meter.Remaining())
        invariant Listener(env, old(Now()), kind, from, to, amount) == Listener(env, Now(), kind, from, to, amount[k..])
        decreases |amount| - k
      {
        assert amount[k..][1..] == amount[k + 1..];
        var coin := amount[k];
        var contract := if coin.denom in hooks then hooks[coin.denom] else "";
        if contract != "" {
          if env.codec.decode(contract).None? {
            return Failed;
          }
          out := SafeSudo(kind, contract, from, to, coin);
          if !out.Succeeded? {
            return Failed;
          }
        }
        k := k + 1;
      }
      return Succeeded;
    }

    // -------------------------------------------------------------------------
    // The bank
    // -------------------------------------------------------------------------

    method BaseSendCoins(from: Address, to: Address, amount: Coins) returns (out: Outcome)
      modifies this
      ensures Run(Now(), out) == BaseSend(old(Now()), from, to, amount)
      ensures meter == old(meter)
    {
      match Transfer(balances, from, to, amount)
      case None =>
        out := Failed;
      case Some(b) =>
        balances := b;
        out := Succeeded;
    }

    method SendCoinsWithoutBlockHook(from: Address, to: Address, amount: Coins) returns (out: Outcome)
      modifies this
      ensures Run(Now(), out) == SendWithoutBlockHook(env, old(Now()), from, to, amount)
      decreases meter.Remaining(), 3
    {
      var _ := CallBeforeSendListener(Track, from, to, amount);
      out := BaseSendCoins(from, to, amount);
    }

    method SendCoins(from: Address, to: Address, amount: Coins) returns (out: Outcome)
      modifies this
      ensures Run(Now(), out) == Ledger.SendCoins(env, old(Now()), from, to, amount)
      decreases meter.Remaining(), 3
    {
      out := CallBeforeSendListener(Block, from, to, amount);
      if !out.Succeeded? {
        return;
      }
      var _ := CallBeforeSendListener(Track, from, to, amount);
      out := BaseSendCoins(from, to, amount);
    }

    method Send(sender: string, recipient: string, amount: Coins) returns (out: Outcome)
      modifies this
      ensures Run(Now(), out) == HandleSend(env, old(Now()), sender, recipient, amount)
      decreases meter.Remaining(), 4
    {
      var from, to := env.codec.decode(sender), env.codec.decode(recipient);
      if from.None? || to.None? {
        return Failed;
      }
      if !ValidCoins(amount) || amount == [] {
        return Failed;
      }
      if exists k :: 0 <= k < |amount| && !env.sendEnabled(amount[k].denom) {
        return Failed;
      }
      if to.value in env.modules {
        return Failed;
      }
      out := SendCoins(from.value, to.value, amount);
    }

    method MultiSend(inputs: seq<Party>, outputs: seq<Party>) returns (out: Outcome)
      modifies this
      ensures Run(Now(), out) == HandleMultiSend(env, old(Now()), inputs, outputs)
      decreases meter.Remaining(), 4
    {
      if |inputs| != 1 || outputs == [] {
        return Failed;
      }
      if !ValidInputOutputs(env.codec, inputs[0], outputs) {
        return Failed;
      }
      if exists k :: 0 <= k < |inputs[0].coins| && !env.sendEnabled(inputs[0].coins[k].denom) {
        return Failed;
      }
      out := AskForOutputs(env.codec.decode(inputs[0].address).value, outputs);
      if !out.Succeeded? {
        return;
      }
      match Distribute(env.codec, balances, inputs[0], outputs)
      case None =>
        out := Failed;
      case Some(b) =>
        balances := b;
    }

    // The loop over the outputs.
    method AskForOutputs(from: Address, outputs: seq<Party>) returns (out: Outcome)
      modifies this
      ensures Run(Now(), out) == Ledger.AskForOutputs(env, old(Now()), from, outputs)
      decreases meter.Remaining(), 3, |outputs| + 1
    {
      var k := 0;
      while k < |outputs|
        invariant 0 <= k <= |outputs|
        invariant meter.Remaining() <= old(meter.Remaining())
        invariant Ledger.AskForOutputs(env, old(Now()), from, outputs) ==
                  Ledger.AskForOutputs(env, Now(), from, outputs[k..])
        decreases |outputs| - k
      {
        assert outputs[k..][1..] == outputs[k + 1..];
        var to := env.codec.decode(outputs[k].address);
        if to.None? || to.value in env.modules {
          return Failed;
        }
        out := CallBeforeSendListener(Block, from, to.value, outputs[k].coins);
        if !out.Succeeded? {
          return;
        }
        var _ := CallBeforeSendListener(Track, from, to.value, outputs[k].coins);
        k := k + 1;
      }
      return Succeeded;
    }

    method SetSupply(denom: string, amount: nat)
      modifies this
      ensures Now() == old(Now()).(st := WithSupply(old(Stores()), denom, amount))
    {
      supply := if amount == 0 then supply - {denom} else supply[denom := amount];
    }

    method MintCoins(coin: Coin)
      requires coin.amount > 0
      modifies this
      ensures Now() == old(Now()).(st := Ledger.MintCoins(env, old(Stores()), coin))
    {
      var was: nat := if coin.denom in supply then supply[coin.denom] else 0;
      balances := AddCoins(balances, env.factory, [coin]);
      SetSupply(coin.denom, was + coin.amount);
    }

    method BurnCoins(coin: Coin) returns (out: Outcome)
      requires coin.amount > 0
      modifies this
      ensures Run(Now(), out) == Settle(old(Now()), Ledger.BurnCoins(env, old(Stores()), coin))
    {
      var was: nat := if coin.denom in supply then supply[coin.denom] else 0;
      match SubCoins(balances, env.factory, [coin])
      case None =>
        out := Failed;
      case Some(b) =>
        if was < coin.amount {
          return Failed;
        }
        balances := b;
        SetSupply(coin.denom, was - coin.amount);
        out := Succeeded;
    }

    // -------------------------------------------------------------------------
    // The token factory
    // -------------------------------------------------------------------------

    method Mint(sender: string, amount: Coin, mintTo: string) returns (out: Outcome)
      modifies this
      ensures Run(Now(), out) == HandleMint(env, old(Now()), sender, amount, mintTo)
      decreases meter.Remaining(), 4
    {
      if !IsAddress(env, sender) || !ValidCoin(amount) {
        return Failed;
      }
      if amount.denom !in metadata {
        return Failed;
      }
      if amount.denom !in admins || admins[amount.denom] != sender {
        return Failed;
      }
      if !IsFactoryDenom(env, amount.denom) {
        return Failed;
      }
      var addr := env.codec.decode(if mintTo == "" then sender else mintTo);
      if addr.None? || addr.value in env.modules {
        return Failed;
      }
      var since := |journal|;
      MintCoins(amount);
      out := SendCoins(env.factory, addr.value, [amount]);
      if out.Succeeded? {
        journal := journal + [Entry(sender, since, Minted(amount))];
      }
    }

    method Burn(sender: string, amount: Coin) returns (out: Outcome)
      modifies this
      ensures Run(Now(), out) == HandleBurn(env, old(Now()), sender, amount)
      decreases meter.Remaining(), 4
    {
      if !IsAddress(env, sender) || !ValidCoin(amount) {
        return Failed;
      }
      if amount.denom !in admins || admins[amount.denom] != sender {
        return Failed;
      }
      if IsModule(env, sender) || !IsFactoryDenom(env, amount.denom) {
        return Failed;
      }
      var since := |journal|;
      out := SendCoins(env.codec.decode(sender).value, env.factory, [amount]);
      if !out.Succeeded? {
        return;
      }
      out := BurnCoins(amount);
      if out.Succeeded? {
        journal := journal + [Entry(sender, since, Burned(amount))];
      }
    }

    method ChangeAdmin(sender: string, denom: string, newAdmin: string) returns (out: Outcome)
      modifies this
      ensures Run(Now(), out) == Settle(old(Now()), AfterChangeAdmin(env, old(Stores()), sender, denom, newAdmin))
    {
      if env.codec.decode(sender).None? || (newAdmin != "" && env.codec.decode(newAdmin).None?) {
        return Failed;
      }
      if !IsFactoryDenom(env, denom) {
        return Failed;
      }
      if denom !in admins || admins[denom] != sender {
        return Failed;
      }
      admins := admins[denom := newAdmin];
      journal := journal + [Entry(sender, |journal|, AdminSet(denom, newAdmin))];
      return Succeeded;
    }

    method SetDenomMetadata(sender: string, md: Metadata) returns (out: Outcome)
      modifies this
      ensures Run(Now(), out) == Settle(old(Now()), AfterSetMetadata(env, old(Stores()), sender, md))
    {
      if !IsAddress(env, sender) || !env.validMetadata(md) || !IsFactoryDenom(env, md.base) {
        return Failed;
      }
      if md.base !in admins || admins[md.base] != sender {
        return Failed;
      }
      metadata := metadata[md.base := md];
      journal := journal + [Entry(sender, |journal|, MetadataSet(md))];
      return Succeeded;
    }

    method SetBeforeSendHook(sender: string, denom: string, contract: string) returns (out: Outcome)
      modifies this
      ensures Run(Now(), out) == HandleSetHook(env, old(Now()), sender, denom, contract)
      decreases meter.Remaining(), 4
    {
      if !IsAddress(env, sender) || !IsFactoryDenom(env, denom) {
        return Failed;
      }
      if denom !in admins || admins[denom] != sender {
        return Failed;
      }
      if contract == "" {
        hooks := hooks - {denom};
        journal := journal + [Entry(sender, |journal|, HookSet(denom, ""))];
        return Succeeded;
      }
      if env.codec.decode(contract).None? {
        return Failed;
      }
      // The trial runs in a cache: the stores are put back afterwards.
      var cached := Stores();
      var reaction := StartCall(meter);
      out := RunContract(reaction);
      Restore(cached);
      if out.Panicked? || (out.Failed? && reaction.ending == Errors(true)) {
        return;
      }
      hooks := hooks[denom := contract];
      journal := journal + [Entry(sender, |journal|, HookSet(denom, contract))];
      return Succeeded;
    }

    method CreateDenom(sender: string, subdenom: string) returns (out: Outcome)
      modifies this
      ensures Run(Now(), out) == HandleCreateDenom(env, old(Now()), sender, subdenom)
      decreases meter.Remaining(), 4, 1
    {
      if !IsAddress(env, sender) || subdenom in supply {
        return Failed;
      }
      var denom := GetTokenDenom(sender, subdenom);
      if denom.Bad? || denom.value in metadata {
        return Failed;
      }
      var since := |journal|;
      out := ChargeForCreateDenom(env.codec.decode(sender).value);
      if out.Succeeded? {
        CreateDenomAfterValidation(sender, denom.value);
        journal := journal + [Entry(sender, since, Created(denom.value))];
      }
    }

    method ChargeForCreateDenom(payer: Address) returns (out: Outcome)
      modifies this
      ensures Run(Now(), out) == ChargeForDenom(env, old(Now()), payer)
      decreases meter.Remaining(), 4, 0
    {
      var charge := params;
      out := SendCoins(payer, env.feeCollector, charge.fee);
      if !out.Succeeded? {
        return;
      }
      meter := meter.Plus(charge.gas);
      if meter.Exhausted() {
        return Panicked;
      }
    }

    method CreateDenomAfterValidation(creator: string, denom: string)
      modifies this
      ensures Now() == old(Now()).(st := AddDenom(old(Stores()), creator, denom))
    {
      if denom !in metadata {
        metadata := metadata[denom := DefaultMetadata(denom)];
      }
      admins := admins[denom := creator];
      creators := creators + {(creator, denom)};
    }

    // -------------------------------------------------------------------------
    // Messages
    // -------------------------------------------------------------------------

    method Restore(cached: State)
      modifies this
      ensures Now() == old(Now()).(st := cached)
    {
      RestoreBank(cached);
      admins := cached.admins;
      creators := cached.creators;
      hooks := cached.hooks;
      params := cached.params;
    }

    method RestoreBank(cached: State)
      modifies this
      ensures Now() == old(Now()).(st := old(Stores()).(balances := cached.balances, supply := cached.supply,
                                                        metadata := cached.metadata, journal := cached.journal))
    {
      balances := cached.balances;
      supply := cached.supply;
      metadata := cached.metadata;
      journal := cached.journal;
    }

    // What a message that does not succeed wrote is thrown away.
    method Deliver(msg: Msg) returns (out: Outcome)
      modifies this
      ensures Run(Now(), out) == Ledger.Deliver(env, old(Now()), msg)
      decreases meter.Remaining(), 6, 0
    {
      var cached := Stores();
      out := Dispatch(msg);
      if !out.Succeeded? {
        Restore(cached);
      }
    }

    method Dispatch(msg: Msg) returns (out: Outcome)
      modifies this
      ensures Run(Now(), out) == Handle(env, old(Now()), msg)
      decreases meter.Remaining(), 5
    {
      if !Authentic(env, msg) {
        return Failed;
      }
      match msg
      case CreateDenom(sender, subdenom) => out := CreateDenom(sender, subdenom);
      case Mint(sender, coin, to) => out := Mint(sender, coin, to);
      case Burn(sender, coin) => out := Burn(sender, coin);
      case ChangeAdmin(sender, denom, admin) => out := ChangeAdmin(sender, denom, admin);
      case SetDenomMetadata(sender, md) => out := SetDenomMetadata(sender, md);
      case SetBeforeSendHook(sender, denom, contract) => out := SetBeforeSendHook(sender, denom, contract);
      case Send(sender, recipient, coins) => out := Send(sender, recipient, coins);
      case MultiSend(inputs, outputs) => out := MultiSend(inputs, outputs);
    }

    method UpdateParams(sender: string, newParams: Params) returns (out: Outcome)
      modifies this
      ensures Run(Now(), out) == Settle(old(Now()), AfterUpdateParams(env, old(Stores()), sender, newParams))
    {
      if sender != env.authority {
        return Failed;
      }
      if !ValidCoins(newParams.fee) {
        return Failed;
      }
      params := newParams;
      return Succeeded;
    }

    // -------------------------------------------------------------------------
    // Runs
    // -------------------------------------------------------------------------

    // A new transaction has a new meter and no history.
    method BeginTransaction(gasLimit: nat)
      modifies this
      ensures Now() == World(old(Stores()), Meter(gasLimit, 0), old(calls), 0, [])
    {
      meter := Meter(gasLimit, 0);
      metered := 0;
      trace := [];
    }

    method ApplyTransactions(txs: seq<Tx>)
      modifies this
      ensures (Stores(), calls) == Execute(env, old(Stores()), old(calls), txs)
    {
      var k := 0;
      while k < |txs|
        invariant 0 <= k <= |txs|
        invariant Execute(env, old(Stores()), old(calls), txs) == Execute(env, Stores(), calls, txs[k..])
      {
        assert txs[k..][1..] == txs[k + 1..];
        match txs[k] {
          case Tx(msg, gasLimit) =>
            BeginTransaction(gasLimit);
            var _ := Deliver(msg);
          case UpdateParams(sender, newParams) =>
            var _ := UpdateParams(sender, newParams);
        }
        k := k + 1;
      }
    }
  }
}
