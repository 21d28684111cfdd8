/** The token factory on top of the bank, with its re-entrant send hooks.

    A contract may do anything when it is called. All that matters of a call is
    what it did in the end: the gas it spent, the messages it dispatched, and how
    it ended. `Env.react` fixes this for the n-th contract call of a run, for every
    n; since it is an arbitrary function, what holds for every `Env` holds for
    every set of contracts, adaptive or not. The one assumption is that a call
    spends at least one unit of gas before it dispatches anything. Nothing bounds
    the nesting of calls but gas: that the functions below terminate is a theorem
    about the gas accounting, not an assumption.

    A dispatched message takes effect whole or not at all, while what a failing
    contract call dispatched before it failed stays in place: hooks do not run in
    a cache of their own.
  */
module Ledger {
  import opened Options
  import opened Denoms
  import opened Bank

  // ---------------------------------------------------------------------------
  // State
  // ---------------------------------------------------------------------------

  datatype Metadata = Metadata(base: string, name: string, symbol: string, display: string,
                               units: seq<(string, nat)>)

  datatype Params = Params(fee: Coins, gas: nat)

  /** What a message did to a denom. */
  datatype Deed =
    | Minted(coin: Coin)
    | Burned(coin: Coin)
    | Created(denom: string)
    | AdminSet(denom: string, admin: string)
    | MetadataSet(metadata: Metadata)
    | HookSet(denom: string, contract: string)

  /** A message that took effect: who sent it, how long the journal was when its
      sender was checked, and what it did. */
  datatype Entry = Entry(sender: string, since: nat, deed: Deed)

  datatype State = State(
    balances: Balances,
    supply: map<string, nat>,           // zero supplies are removed
    metadata: map<string, Metadata>,    // the bank's
    admins: map<string, string>,
    creators: set<(string, string)>,    // (creator, denom)
    hooks: map<string, string>,
    params: Params,
    journal: seq<Entry>)                // history, for the laws only

  function Noted(st: State, sender: string, since: nat, deed: Deed): State {
    st.(journal := st.journal + [Entry(sender, since, deed)])
  }

  function SupplyOf(st: State, denom: string): nat {
    if denom in st.supply then st.supply[denom] else 0
  }

  function HookOf(st: State, denom: string): string {
    if denom in st.hooks then st.hooks[denom] else ""
  }

  // ---------------------------------------------------------------------------
  // Messages and contracts
  // ---------------------------------------------------------------------------

  datatype Msg =
    | CreateDenom(sender: string, subdenom: string)
    | Mint(sender: string, coin: Coin, to: string)
    | Burn(sender: string, coin: Coin)
    | ChangeAdmin(sender: string, denom: string, newAdmin: string)
    | SetDenomMetadata(sender: string, metadata: Metadata)
    | SetBeforeSendHook(sender: string, denom: string, contract: string)
    | Send(sender: string, recipient: string, coins: Coins)
    | MultiSend(inputs: seq<Party>, outputs: seq<Party>)

  type EntryGas = n: int | n >= 1 witness 1

  datatype Act = Spend(gas: nat) | Dispatch(msg: Msg)
  datatype Ending = Returns | Errors(noSuchContract: bool) | Panics
  datatype Reaction = Reaction(entry: EntryGas, acts: seq<Act>, ending: Ending)

  datatype Env = Env(
    codec: Codec,
    factory: Address,                   // the token factory's module account
    feeCollector: Address,
    modules: set<Address>,              // all module accounts; all are blocked recipients
    sendEnabled: string -> bool,
    validMetadata: Metadata -> bool,
    authority: string,
    delegates: Address -> bool,         // contracts, and accounts that let a contract sign for them
    react: nat -> Reaction)
  {
    ghost predicate Valid() {
      && codec.Valid()
      && factory in modules
      && feeCollector in modules
      && feeCollector != factory
      && (forall a :: a in modules ==> !delegates(a))
    }
  }

  /** Can a contract sign for this account? */
  predicate CanSign(env: Env, s: string) {
    env.codec.decode(s).Some? && env.delegates(env.codec.decode(s).value)
  }

  /** May a contract dispatch this message? */
  predicate Signable(env: Env, msg: Msg) {
    match msg
    case MultiSend(inputs, _) =>
      forall k :: 0 <= k < |inputs| ==> CanSign(env, inputs[k].address)
    case _ => CanSign(env, msg.sender)
  }

  /** Module accounts have no keys: no message is signed by one. */
  predicate Authentic(env: Env, msg: Msg) {
    match msg
    case MultiSend(inputs, _) =>
      forall k :: 0 <= k < |inputs| ==> !IsModule(env, inputs[k].address)
    case _ => !IsModule(env, msg.sender)
  }

  predicate IsModule(env: Env, s: string) {
    env.codec.decode(s).Some? && env.codec.decode(s).value in env.modules
  }

  // ---------------------------------------------------------------------------
  // Gas
  // ---------------------------------------------------------------------------

  const HOOK_GAS_LIMIT: nat := 500_000

  datatype Meter = Meter(limit: nat, consumed: nat) {
    function Remaining(): nat {
      if consumed <= limit then limit - consumed else 0
    }

    function ConsumedToLimit(): nat {
      if consumed <= limit then consumed else limit
    }

    function Plus(gas: nat): Meter {
      Meter(limit, consumed + gas)
    }

    /** Consuming past the limit panics. */
    predicate Exhausted() {
      consumed > limit
    }
  }

  // ---------------------------------------------------------------------------
  // The world a message runs in
  // ---------------------------------------------------------------------------

  datatype Kind = Block | Track

  /** A hook call that came back, and whether without an error. */
  datatype Call = Call(kind: Kind, contract: string, from: Address, to: Address, coin: Coin, approved: bool)

  datatype World = World(
    st: State,
    meter: Meter,
    calls: nat,          // contract calls started so far: the index of the next reaction
    metered: nat,        // of those, the hook and probe calls started with gas left
    trace: seq<Call>)    // hook calls that came back, rolled back or not

  datatype Outcome = Succeeded | Failed | Panicked
  datatype Run = Run(w: World, out: Outcome)

  /** Gas only accumulates, the trace only grows, and each metered call is paid
      for: it costs the meter at least one unit. */
  predicate Later(w: World, w': World) {
    && w'.meter.limit == w.meter.limit
    && w.meter.consumed <= w'.meter.consumed
    && w.trace <= w'.trace
    && w.metered <= w'.metered
    && w'.metered - w.metered <= w'.meter.ConsumedToLimit() - w.meter.ConsumedToLimit()
  }

  /** A meter within its limit stays within it. */
  predicate StaysWithin(w: World, w': World) {
    !w.meter.Exhausted() ==> !w'.meter.Exhausted()
  }

  function Min(a: nat, b: nat): nat {
    if a <= b then a else b
  }

  function Ended(r: Run, ending: Ending): (r': Run)
    ensures r'.w == r.w
  {
    if !r.out.Succeeded? then r
    else
      match ending
      case Returns => r
      case Errors(_) => Run(r.w, Failed)
      case Panics => Run(r.w, Panicked)
  }

  /** One unit more on the count of metered calls, if there is gas left. */
  function Counted(metered: nat, gas: nat): nat {
    if gas > 0 then metered + 1 else metered
  }

  // ---------------------------------------------------------------------------
  // Contract calls
  // ---------------------------------------------------------------------------

  /** The acts of a running contract, in turn. A failed message, or one that it may
      not sign, is the contract's to handle; a panic ends the call. */
  function RunActs(env: Env, w: World, acts: seq<Act>): (r: Run)
    ensures Later(w, r.w)
    ensures !r.out.Panicked? ==> StaysWithin(w, r.w)
    decreases w.meter.Remaining(), 6, |acts|
  {
    if acts == [] then Run(w, Succeeded)
    else
      match acts[0]
      case Spend(gas) =>
        var w1 := w.(meter := w.meter.Plus(gas));
        if w1.meter.Exhausted() then Run(w1, Panicked) else RunActs(env, w1, acts[1..])
      case Dispatch(msg) =>
        if !Signable(env, msg) then RunActs(env, w, acts[1..])
        else
          var r := Deliver(env, w, msg);
          if r.out.Panicked? then r else RunActs(env, r.w, acts[1..])
  }

  /** A contract call on the meter as it is: entry, acts, ending. */
  function RunContract(env: Env, w: World, reaction: Reaction): (r: Run)
    ensures Later(w.(meter := w.meter.Plus(reaction.entry)), r.w)
    ensures !r.out.Panicked? ==> StaysWithin(w, r.w)
    decreases w.meter.Remaining(), 0, 1
  {
    var w1 := w.(meter := w.meter.Plus(reaction.entry));
    if w1.meter.Exhausted() then Run(w1, Panicked)
    else Ended(RunActs(env, w1, reaction.acts), reaction.ending)
  }

  /** `safeSudo`: the call gets a meter of its own, capped by the hook limit and by
      what the caller has left, and is charged to the caller however it ends. */
  function CallHook(env: Env, w: World, kind: Kind, contract: string, from: Address, to: Address, coin: Coin): (r: Run)
    ensures Later(w, r.w) && StaysWithin(w, r.w)
    ensures r.w.meter.consumed - w.meter.consumed <= HOOK_GAS_LIMIT
    ensures |r.w.trace| > |w.trace|
    ensures r.w.trace[|r.w.trace| - 1] == Call(kind, contract, from, to, coin, r.out.Succeeded?)
    decreases w.meter.Remaining(), 1, 0
  {
    var limit := Min(w.meter.Remaining(), HOOK_GAS_LIMIT);
    var child := w.(meter := Meter(limit, 0), calls := w.calls + 1, metered := Counted(w.metered, limit));
    var r := RunContract(env, child, env.react(w.calls));
    var charged := w.meter.Plus(r.w.meter.ConsumedToLimit());
    var out := if charged.Exhausted() then Panicked else r.out;
    Run(r.w.(meter := charged, trace := r.w.trace + [Call(kind, contract, from, to, coin, out.Succeeded?)]), out)
  }

  /** `callBeforeSendListener`: coin by coin, each by the hook it has at its turn.
      The first error ends it; panics are recovered and become errors. */
  function Listener(env: Env, w: World, kind: Kind, from: Address, to: Address, coins: Coins): (r: Run)
    ensures Later(w, r.w) && StaysWithin(w, r.w)
    ensures r.w.meter.consumed - w.meter.consumed <= |coins| * HOOK_GAS_LIMIT
    ensures !r.out.Panicked?
    decreases w.meter.Remaining(), 2, |coins|
  {
    if coins == [] then Run(w, Succeeded)
    else
      var contract := HookOf(w.st, coins[0].denom);
      if contract == "" then Listener(env, w, kind, from, to, coins[1..])
      else if env.codec.decode(contract).None? then Run(w, Failed)
      else
        var r := CallHook(env, w, kind, contract, from, to, coins[0]);
        if !r.out.Succeeded? then Run(r.w, Failed)
        else Listener(env, r.w, kind, from, to, coins[1..])
  }

  // ---------------------------------------------------------------------------
  // Sends
  // ---------------------------------------------------------------------------

  /** The base keeper's send on the state as it is. */
  function BaseSend(w: World, from: Address, to: Address, coins: Coins): (r: Run) {
    match Transfer(w.st.balances, from, to, coins)
    case None => Run(w, Failed)
    case Some(b) => Run(w.(st := w.st.(balances := b)), Succeeded)
  }

  /** Module-to-module sends: tracked, but never blocked. */
  function SendWithoutBlockHook(env: Env, w: World, from: Address, to: Address, coins: Coins): (r: Run)
    ensures Later(w, r.w) && StaysWithin(w, r.w)
    ensures r.w.meter.consumed - w.meter.consumed <= |coins| * HOOK_GAS_LIMIT
    ensures !r.out.Panicked?
    decreases w.meter.Remaining(), 3
  {
    BaseSend(Listener(env, w, Track, from, to, coins).w, from, to, coins)
  }

  /** All other sends: blocked, then tracked, then carried out. */
  function SendCoins(env: Env, w: World, from: Address, to: Address, coins: Coins): (r: Run)
    ensures Later(w, r.w) && StaysWithin(w, r.w)
    ensures r.w.meter.consumed - w.meter.consumed <= 2 * |coins| * HOOK_GAS_LIMIT
    ensures !r.out.Panicked?
    decreases w.meter.Remaining(), 3
  {
    var blocked := Listener(env, w, Block, from, to, coins);
    if !blocked.out.Succeeded? then blocked
    else BaseSend(Listener(env, blocked.w, Track, from, to, coins).w, from, to, coins)
  }

  /** The loop of a multi-send: both hooks for every output, before any balance
      moves. */
  function AskForOutputs(env: Env, w: World, from: Address, outputs: seq<Party>): (r: Run)
    ensures Later(w, r.w) && StaysWithin(w, r.w)
    ensures !r.out.Panicked?
    decreases w.meter.Remaining(), 3, |outputs|
  {
    if outputs == [] then Run(w, Succeeded)
    else
      match env.codec.decode(outputs[0].address)
      case None => Run(w, Failed)
      case Some(to) =>
        if to in env.modules then Run(w, Failed)
        else
          var blocked := Listener(env, w, Block, from, to, outputs[0].coins);
          if !blocked.out.Succeeded? then blocked
          else
            var tracked := Listener(env, blocked.w, Track, from, to, outputs[0].coins);
            AskForOutputs(env, tracked.w, from, outputs[1..])
  }

  // ---------------------------------------------------------------------------
  // Messages that call no contract
  // ---------------------------------------------------------------------------

  /** Is `sender` the admin of `denom`? */
  predicate IsAdmin(st: State, denom: string, sender: string) {
    denom in st.admins && st.admins[denom] == sender
  }

  predicate IsFactoryDenom(env: Env, denom: string) {
    DeconstructDenom(env.codec, denom).Good?
  }

  predicate IsAddress(env: Env, s: string) {
    env.codec.decode(s).Some? && env.codec.decode(s).value != ""
  }

  /** `ChangeAdmin`; the empty string renounces. */
  function AfterChangeAdmin(env: Env, st: State, sender: string, denom: string, newAdmin: string): Option<State> {
    if env.codec.decode(sender).None? then None
    else if newAdmin != "" && env.codec.decode(newAdmin).None? then None
    else if !IsFactoryDenom(env, denom) then None
    else if !IsAdmin(st, denom, sender) then None
    else Some(Noted(st.(admins := st.admins[denom := newAdmin]), sender, |st.journal|, AdminSet(denom, newAdmin)))
  }

  function AfterSetMetadata(env: Env, st: State, sender: string, md: Metadata): Option<State> {
    if !IsAddress(env, sender) then None
    else if !env.validMetadata(md) then None
    else if !IsFactoryDenom(env, md.base) then None
    else if !IsAdmin(st, md.base, sender) then None
    else Some(Noted(st.(metadata := st.metadata[md.base := md]), sender, |st.journal|, MetadataSet(md)))
  }

  function AfterUpdateParams(env: Env, st: State, sender: string, params: Params): Option<State> {
    if sender != env.authority then None
    else if !ValidCoins(params.fee) then None
    else Some(st.(params := params))
  }

  function Settle(w: World, st: Option<State>): (r: Run)
    ensures Later(w, r.w) && r.w.meter == w.meter && !r.out.Panicked?
  {
    match st
    case None => Run(w, Failed)
    case Some(st') => Run(w.(st := st'), Succeeded)
  }

  // ---------------------------------------------------------------------------
  // Messages that may call contracts
  // ---------------------------------------------------------------------------

  function WithSupply(st: State, denom: string, amount: nat): State {
    if amount == 0 then st.(supply := st.supply - {denom}) else st.(supply := st.supply[denom := amount])
  }

  /** The bank mints into the factory's module account. */
  function MintCoins(env: Env, st: State, coin: Coin): State
    requires coin.amount > 0
  {
    WithSupply(st.(balances := AddCoins(st.balances, env.factory, [coin])), coin.denom,
               SupplyOf(st, coin.denom) + coin.amount)
  }

  /** The bank burns from the factory's module account. */
  function BurnCoins(env: Env, st: State, coin: Coin): Option<State>
    requires coin.amount > 0
  {
    match SubCoins(st.balances, env.factory, [coin])
    case None => None
    case Some(b) =>
      if SupplyOf(st, coin.denom) < coin.amount then None
      else Some(WithSupply(st.(balances := b), coin.denom, SupplyOf(st, coin.denom) - coin.amount))
  }

  function Record(r: Run, sender: string, since: nat, deed: Deed): (r': Run)
    ensures r'.w.meter == r.w.meter && r'.w.trace == r.w.trace && r'.w.metered == r.w.metered && r'.out == r.out
  {
    if r.out.Succeeded? then Run(r.w.(st := Noted(r.w.st, sender, since, deed)), Succeeded) else r
  }

  /** `Mint`: into the module account, and from there, by a hooked send, on. */
  function HandleMint(env: Env, w: World, sender: string, coin: Coin, to: string): (r: Run)
    ensures Later(w, r.w) && StaysWithin(w, r.w)
    ensures !r.out.Panicked?
    decreases w.meter.Remaining(), 4
  {
    var recipient := env.codec.decode(if to == "" then sender else to);
    if !IsAddress(env, sender) || !ValidCoin(coin) then Run(w, Failed)
    else if coin.denom !in w.st.metadata then Run(w, Failed)
    else if !IsAdmin(w.st, coin.denom, sender) then Run(w, Failed)
    else if !IsFactoryDenom(env, coin.denom) then Run(w, Failed)
    else if recipient.None? || recipient.value in env.modules then Run(w, Failed)
    else
      var minted := w.(st := MintCoins(env, w.st, coin));
      Record(SendCoins(env, minted, env.factory, recipient.value, [coin]), sender, |w.st.journal|, Minted(coin))
  }

  /** `Burn`: by a hooked send into the module account, and there destroyed. */
  function HandleBurn(env: Env, w: World, sender: string, coin: Coin): (r: Run)
    ensures Later(w, r.w) && StaysWithin(w, r.w)
    ensures !r.out.Panicked?
    decreases w.meter.Remaining(), 4
  {
    if !IsAddress(env, sender) || !ValidCoin(coin) then Run(w, Failed)
    else if !IsAdmin(w.st, coin.denom, sender) then Run(w, Failed)
    else if IsModule(env, sender) then Run(w, Failed)
    else if !IsFactoryDenom(env, coin.denom) then Run(w, Failed)
    else
      var r := SendCoins(env, w, env.codec.decode(sender).value, env.factory, [coin]);
      if !r.out.Succeeded? then r
      else Record(Settle(r.w, BurnCoins(env, r.w.st, coin)), sender, |w.st.journal|, Burned(coin))
  }

  function DefaultMetadata(denom: string): Metadata {
    Metadata(denom, denom, denom, denom, [(denom, 0)])
  }

  /** `createDenomAfterValidation`; also used by genesis. */
  function AddDenom(st: State, creator: string, denom: string): State {
    st.(metadata := if denom in st.metadata then st.metadata else st.metadata[denom := DefaultMetadata(denom)],
        admins := st.admins[denom := creator],
        creators := st.creators + {(creator, denom)})
  }

  /** `validateCreateDenom`, after the message's own check. */
  function NewDenom(env: Env, st: State, sender: string, subdenom: string): Option<string> {
    if !IsAddress(env, sender) then None
    else if subdenom in st.supply then None
    else
      match GetTokenDenom(sender, subdenom)
      case Bad(_) => None
      case Good(denom) => if denom in st.metadata then None else Some(denom)
  }

  /** `chargeForCreateDenom`: the fee goes by a hooked send to the fee collector,
      then the creation gas is consumed. */
  function ChargeForDenom(env: Env, w: World, payer: Address): (r: Run)
    ensures Later(w, r.w)
    ensures !r.out.Panicked? ==> StaysWithin(w, r.w)
    decreases w.meter.Remaining(), 4, 0
  {
    var params := w.st.params;
    var r := SendCoins(env, w, payer, env.feeCollector, params.fee);
    if !r.out.Succeeded? then r
    else
      var w1 := r.w.(meter := r.w.meter.Plus(params.gas));
      if w1.meter.Exhausted() then Run(w1, Panicked) else Run(w1, Succeeded)
  }

  function HandleCreateDenom(env: Env, w: World, sender: string, subdenom: string): (r: Run)
    ensures Later(w, r.w)
    ensures !r.out.Panicked? ==> StaysWithin(w, r.w)
    decreases w.meter.Remaining(), 4, 1
  {
    match NewDenom(env, w.st, sender, subdenom)
    case None => Run(w, Failed)
    case Some(denom) =>
      var r := ChargeForDenom(env, w, env.codec.decode(sender).value);
      if !r.out.Succeeded? then r
      else Run(r.w.(st := Noted(AddDenom(r.w.st, sender, denom), sender, |w.st.journal|, Created(denom))), Succeeded)
  }

  function WithHook(hooks: map<string, string>, denom: string, contract: string): map<string, string> {
    if contract == "" then hooks - {denom} else hooks[denom := contract]
  }

  function AfterSetHook(st: State, sender: string, denom: string, contract: string): State {
    Noted(st.(hooks := WithHook(st.hooks, denom, contract)), sender, |st.journal|, HookSet(denom, contract))
  }

  /** `setBeforeSendHook` tries the contract first, on the caller's own meter and
      in a cache that is thrown away. Only a missing contract counts against it. */
  function HandleSetHook(env: Env, w: World, sender: string, denom: string, contract: string): (r: Run)
    ensures Later(w, r.w)
    ensures !r.out.Panicked? ==> StaysWithin(w, r.w)
    decreases w.meter.Remaining(), 4
  {
    if !IsAddress(env, sender) || !IsFactoryDenom(env, denom) then Run(w, Failed)
    else if !IsAdmin(w.st, denom, sender) then Run(w, Failed)
    else if contract == "" then Run(w.(st := AfterSetHook(w.st, sender, denom, "")), Succeeded)
    else if env.codec.decode(contract).None? then Run(w, Failed)
    else
      var reaction := env.react(w.calls);
      var w1 := w.(calls := w.calls + 1, metered := Counted(w.metered, w.meter.Remaining()));
      var r := RunContract(env, w1, reaction);
      var back := r.w.(st := w.st);
      if r.out.Panicked? then Run(back, Panicked)
      else if r.out.Failed? && reaction.ending == Errors(true) then Run(back, Failed)
      else Run(back.(st := AfterSetHook(w.st, sender, denom, contract)), Succeeded)
  }

  function HandleSend(env: Env, w: World, sender: string, recipient: string, coins: Coins): (r: Run)
    ensures Later(w, r.w) && StaysWithin(w, r.w)
    ensures !r.out.Panicked?
    decreases w.meter.Remaining(), 4
  {
    match (env.codec.decode(sender), env.codec.decode(recipient))
    case (Some(from), Some(to)) =>
      if !ValidCoins(coins) || coins == [] then Run(w, Failed)
      else if exists k :: 0 <= k < |coins| && !env.sendEnabled(coins[k].denom) then Run(w, Failed)
      else if to in env.modules then Run(w, Failed)
      else SendCoins(env, w, from, to, coins)
    case _ => Run(w, Failed)
  }

  function HandleMultiSend(env: Env, w: World, inputs: seq<Party>, outputs: seq<Party>): (r: Run)
    ensures Later(w, r.w) && StaysWithin(w, r.w)
    ensures !r.out.Panicked?
    decreases w.meter.Remaining(), 4
  {
    if |inputs| != 1 || outputs == [] then Run(w, Failed)
    else if !ValidInputOutputs(env.codec, inputs[0], outputs) then Run(w, Failed)
    else if exists k :: 0 <= k < |inputs[0].coins| && !env.sendEnabled(inputs[0].coins[k].denom) then Run(w, Failed)
    else
      var r := AskForOutputs(env, w, env.codec.decode(inputs[0].address).value, outputs);
      if !r.out.Succeeded? then r
      else
        match Distribute(env.codec, r.w.st.balances, inputs[0], outputs)
        case None => Run(r.w, Failed)
        case Some(b) => Run(r.w.(st := r.w.st.(balances := b)), Succeeded)
  }

  // ---------------------------------------------------------------------------
  // Messages and runs
  // ---------------------------------------------------------------------------

  function Handle(env: Env, w: World, msg: Msg): (r: Run)
    ensures Later(w, r.w)
    ensures !r.out.Panicked? ==> StaysWithin(w, r.w)
    decreases w.meter.Remaining(), 5
  {
    if !Authentic(env, msg) then Run(w, Failed)
    else
      match msg
      case CreateDenom(sender, subdenom) => HandleCreateDenom(env, w, sender, subdenom)
      case Mint(sender, coin, to) => HandleMint(env, w, sender, coin, to)
      case Burn(sender, coin) => HandleBurn(env, w, sender, coin)
      case ChangeAdmin(sender, denom, admin) => Settle(w, AfterChangeAdmin(env, w.st, sender, denom, admin))
      case SetDenomMetadata(sender, md) => Settle(w, AfterSetMetadata(env, w.st, sender, md))
      case SetBeforeSendHook(sender, denom, contract) => HandleSetHook(env, w, sender, denom, contract)
      case Send(sender, recipient, coins) => HandleSend(env, w, sender, recipient, coins)
      case MultiSend(inputs, outputs) => HandleMultiSend(env, w, inputs, outputs)
  }

  /** A message takes effect whole or not at all; gas and history stay. */
  function Deliver(env: Env, w: World, msg: Msg): (r: Run)
    ensures Later(w, r.w)
    ensures !r.out.Panicked? ==> StaysWithin(w, r.w)
    ensures !r.out.Succeeded? ==> r.w.st == w.st
    decreases w.meter.Remaining(), 6, 0
  {
    var r := Handle(env, w, msg);
    if r.out.Succeeded? then r else Run(r.w.(st := w.st), r.out)
  }

  /** A top-level message, with the gas limit of its transaction, or a change of
      the parameters, which only the module's authority can make. */
  datatype Tx = Tx(msg: Msg, gasLimit: nat) | UpdateParams(sender: string, params: Params)

  /** The state and the number of contract calls after one transaction. */
  function Transact(env: Env, st: State, calls: nat, tx: Tx): (State, nat) {
    match tx
    case Tx(msg, gasLimit) =>
      var r := Deliver(env, World(st, Meter(gasLimit, 0), calls, 0, []), msg);
      (r.w.st, r.w.calls)
    case UpdateParams(sender, params) =>
      match AfterUpdateParams(env, st, sender, params)
      case None => (st, calls)
      case Some(st') => (st', calls)
  }

  /** The same after a run of transactions. */
  function Execute(env: Env, st: State, calls: nat, txs: seq<Tx>): (State, nat)
    decreases |txs|
  {
    if txs == [] then (st, calls)
    else
      var (st', calls') := Transact(env, st, calls, txs[0]);
      Execute(env, st', calls', txs[1..])
  }
}
