/** What the token factory promises over whole runs, and of every send. */
module LedgerTheorems {
  import opened Denoms
  import opened Bank
  import opened Ledger
  import opened Chronicle
  import opened LedgerLaws
  import opened LedgerNest

  // ---------------------------------------------------------------------------
  // Runs
  // ---------------------------------------------------------------------------

  /** The senders of the messages of a run. */
  function Senders(txs: seq<Tx>): set<string>
    decreases |txs|
  {
    if txs == [] then {} else (if txs[0].Tx? then Signers(txs[0].msg) else {}) + Senders(txs[1..])
  }

  /** Like `Evolves`, for runs, in which the parameters may change. */
  ghost predicate RunEvolves(env: Env, st: State, st': State, signers: set<string>) {
    Conserves(st, st') && FactoryKept(env, st, st') && Indexes(env, st, st') && Follows(env, st, st', signers)
  }

  lemma TransactEvolves(env: Env, st: State, calls: nat, tx: Tx, signers: set<string>)
    requires env.Valid() && (tx.Tx? ==> Signers(tx.msg) <= signers)
    ensures RunEvolves(env, st, Transact(env, st, calls, tx).0, signers)
  {
    match tx
    case Tx(msg, gasLimit) =>
      DeliverEvolves(env, World(st, Meter(gasLimit, 0), calls, 0, []), msg);
      FollowsMore(env, st, Transact(env, st, calls, tx).0, Signers(msg), signers);
    case UpdateParams(sender, params) =>
      EvolvesReflexive(env, st, signers);
      ParamsSound(env, st, params, signers);
  }

  lemma ParamsSound(env: Env, st: State, params: Params, signers: set<string>)
    ensures RunEvolves(env, st, st.(params := params), signers)
  {
    var st' := st.(params := params);
    SameBooksIndexed(env, st, st');
    assert forall d :: SupplyOf(st', d) == SupplyOf(st, d);
    FollowsReflexive(env, st, signers);
    FollowsAlike(env, st, st, st, st', signers);
  }

  lemma RunEvolvesTransitive(env: Env, a: State, b: State, c: State, signers: set<string>)
    requires RunEvolves(env, a, b, signers) && RunEvolves(env, b, c, signers)
    ensures RunEvolves(env, a, c, signers)
  {
    FollowsTransitive(env, a, b, c, signers);
  }

  lemma {:induction false} ExecuteEvolves(env: Env, st: State, calls: nat, txs: seq<Tx>, signers: set<string>)
    requires env.Valid() && Senders(txs) <= signers
    ensures RunEvolves(env, st, Execute(env, st, calls, txs).0, signers)
    decreases |txs|
  {
    if txs == [] {
      EvolvesReflexive(env, st, signers);
    } else {
      var (st', calls') := Transact(env, st, calls, txs[0]);
      TransactEvolves(env, st, calls, txs[0], signers);
      ExecuteEvolves(env, st', calls', txs[1..], signers);
      RunEvolvesTransitive(env, st, st', Execute(env, st', calls', txs[1..]).0, signers);
    }
  }

  /** In every run, whatever its hooks do: balances keep adding up to supplies, and
      each supply changes by exactly the mints minus the burns that took effect. */
  lemma RunsConserve(env: Env, st: State, calls: nat, txs: seq<Tx>)
    requires env.Valid() && Balanced(st)
    ensures var st' := Execute(env, st, calls, txs).0;
            && Balanced(st')
            && st.journal <= st'.journal
            && forall d :: SupplyOf(st', d) == SupplyOf(st, d) + Net(st'.journal, d) - Net(st.journal, d)
  {
    ExecuteEvolves(env, st, calls, txs, Senders(txs));
  }

  /** The factory's module account ends every run as it began it: empty, if it
      began empty. */
  lemma RunsLeaveFactoryEmpty(env: Env, st: State, calls: nat, txs: seq<Tx>, d: string)
    requires env.Valid()
    ensures Balance(Execute(env, st, calls, txs).0.balances, env.factory, d) == Balance(st.balances, env.factory, d)
  {
    ExecuteEvolves(env, st, calls, txs, Senders(txs));
  }

  /** Creator index and admin map agree after every run. */
  lemma RunsKeepIndex(env: Env, st: State, calls: nat, txs: seq<Tx>)
    requires env.Valid() && Indexed(env, st)
    ensures Indexed(env, Execute(env, st, calls, txs).0)
    ensures st.creators <= Execute(env, st, calls, txs).0.creators
  {
    ExecuteEvolves(env, st, calls, txs, Senders(txs));
  }

  // ---------------------------------------------------------------------------
  // Authority
  // ---------------------------------------------------------------------------

  /** What a run adds to the journal. */
  function LogOf(env: Env, st: State, calls: nat, txs: seq<Tx>): seq<Entry>
    requires env.Valid()
  {
    ExecuteEvolves(env, st, calls, txs, Senders(txs));
    Execute(env, st, calls, txs).0.journal[|st.journal|..]
  }

  /** In every run, whatever its hooks do: the books at the end are the journal of
      the run played on the books at its beginning. */
  lemma BooksAreReplayed(env: Env, st: State, calls: nat, txs: seq<Tx>)
    requires env.Valid()
    ensures BooksOf(Execute(env, st, calls, txs).0) == Replay(BooksOf(st), LogOf(env, st, calls, txs))
  {
    ExecuteEvolves(env, st, calls, txs, Senders(txs));
  }

  /** The books when the sender of an entry of the log was checked. */
  function BooksAtCheck(st: State, log: seq<Entry>, e: Entry): Books
    requires |st.journal| <= e.since <= |st.journal| + |log|
  {
    Replay(BooksOf(st), log[..e.since - |st.journal|])
  }

  /** Every message in the journal of a run, nested ones included, was sent by the
      one who was the denom's admin when it was checked, and who was not the empty
      string, or else it created a denom under its sender's name that nobody had
      created before. Its sender sent one of the transactions, or is an account
      that contracts can sign for. */
  lemma OnlyTheAdmin(env: Env, st: State, calls: nat, txs: seq<Tx>, k: nat)
    requires env.Valid() && k < |LogOf(env, st, calls, txs)|
    ensures var log := LogOf(env, st, calls, txs);
            var e := log[k];
            && |st.journal| <= e.since <= |st.journal| + k
            && (Immediate(e.deed) ==> e.since == |st.journal| + k)
            && (e.sender in Senders(txs) || CanSign(env, e.sender))
            && var books := BooksAtCheck(st, log, e);
            && var d := DenomOf(e.deed);
            && (if e.deed.Created? then d !in books.metadata && BuiltFrom(e.sender, d)
                else e.sender != "" && d in books.admins && books.admins[d] == e.sender)
  {
    ExecuteEvolves(env, st, calls, txs, Senders(txs));
    var st' := Execute(env, st, calls, txs).0;
    var start := |st.journal|;
    assert Warranted(env, BooksOf(st), start, st'.journal, Senders(txs), start + k);
    var since := st'.journal[start + k].since;
    assert st'.journal[start..][..since - start] == st'.journal[start..since];
  }

  /** Component by component, for every denom on record: its admin is as the last
      change of admin in the journal says, its metadata as the last change of
      metadata, its hook as the last change of hook, and its supply changes by mints
      minus burns. Without such an entry, each stays as it was. */
  lemma ChangesAreDeeds(env: Env, st: State, calls: nat, txs: seq<Tx>, d: string)
    requires env.Valid() && d in st.admins && d in st.metadata
    ensures var st' := Execute(env, st, calls, txs).0;
            var log := LogOf(env, st, calls, txs);
            && d in st'.admins && st'.admins[d] == LastAdmin(log, d, st.admins[d])
            && d in st'.metadata && st'.metadata[d] == LastMetadata(log, d, st.metadata[d])
            && HookOf(st', d) == LastHook(log, d, HookOf(st, d))
            && SupplyOf(st', d) == SupplyOf(st, d) + Net(log, d)
  {
    ExecuteEvolves(env, st, calls, txs, Senders(txs));
    var st' := Execute(env, st, calls, txs).0;
    var log := LogOf(env, st, calls, txs);
    forall k | 0 <= k < |log| ensures log[k].deed != Created(d) {
      NotCreatedAgain(env, BooksOf(st), st.journal, st'.journal, Senders(txs), d, |st.journal| + k);
    }
    LastWord(BooksOf(st), log, d);
    NetAppend(st.journal, log, d);
    assert st.journal + log == st'.journal;
  }

  lemma {:induction false} NetAppend(a: seq<Entry>, b: seq<Entry>, d: string)
    ensures Net(a + b, d) == Net(a, d) + Net(b, d)
    decreases |b|
  {
    if b == [] {
      assert a + b == a;
    } else {
      NetAppend(a, b[..|b| - 1], d);
      assert (a + b)[..|a + b| - 1] == a + b[..|b| - 1];
    }
  }

  /** Admin, metadata, hook and supply of a denom are as they were. */
  ghost predicate Untouched(st: State, st': State, d: string) {
    && d in st.admins && d in st'.admins && st'.admins[d] == st.admins[d]
    && d in st.metadata && d in st'.metadata && st'.metadata[d] == st.metadata[d]
    && HookOf(st', d) == HookOf(st, d)
    && SupplyOf(st', d) == SupplyOf(st, d)
  }

  lemma {:induction false} NoNet(log: seq<Entry>, d: string)
    requires forall k :: 0 <= k < |log| ==> DenomOf(log[k].deed) != d
    ensures Net(log, d) == 0
    decreases |log|
  {
    if log != [] {
      NoNet(log[..|log| - 1], d);
      assert DenomOf(log[|log| - 1].deed) != d;
    }
  }

  /** Nothing in a run touches a denom whose admin sends none of its transactions
      and lets no contract sign. */
  lemma OutOfReachIsUntouched(env: Env, st: State, calls: nat, txs: seq<Tx>, d: string)
    requires env.Valid() && OutOfReach(env, BooksOf(st), Senders(txs), d)
    ensures Untouched(st, Execute(env, st, calls, txs).0, d)
  {
    ExecuteEvolves(env, st, calls, txs, Senders(txs));
    OutOfReachStays(env, st, Execute(env, st, calls, txs).0, Senders(txs), d);
    ChangesAreDeeds(env, st, calls, txs, d);
    NoNet(LogOf(env, st, calls, txs), d);
  }

  /** A denom whose admin has been renounced is frozen for good, whatever messages
      and contracts come after. */
  lemma RenouncedIsFrozen(env: Env, st: State, calls: nat, txs: seq<Tx>, d: string)
    requires env.Valid() && Indexed(env, st)
    requires d in st.admins && st.admins[d] == ""
    ensures Untouched(st, Execute(env, st, calls, txs).0, d)
  {
    OutOfReachIsUntouched(env, st, calls, txs, d);
  }

  /** Hooks stay addresses, and of denoms on record. */
  lemma RunsKeepHooks(env: Env, st: State, calls: nat, txs: seq<Tx>)
    requires env.Valid() && ValidHooks(env, BooksOf(st))
    ensures ValidHooks(env, BooksOf(Execute(env, st, calls, txs).0))
  {
    ExecuteEvolves(env, st, calls, txs, Senders(txs));
    FollowsKeepsHooks(env, st, Execute(env, st, calls, txs).0, Senders(txs));
  }

  // ---------------------------------------------------------------------------
  // Blocking and tracking
  // ---------------------------------------------------------------------------

  /** One coin's turn. */
  function Turn(env: Env, w: World, kind: Kind, from: Address, to: Address, coin: Coin): Run {
    var contract := HookOf(w.st, coin.denom);
    if contract == "" then Run(w, Succeeded)
    else if env.codec.decode(contract).None? then Run(w, Failed)
    else
      var r := CallHook(env, w, kind, contract, from, to, coin);
      if r.out.Succeeded? then r else Run(r.w, Failed)
  }

  lemma FirstTurn(env: Env, w: World, kind: Kind, from: Address, to: Address, coins: Coins)
    requires coins != []
    ensures var first := Turn(env, w, kind, from, to, coins[0]);
            Listener(env, w, kind, from, to, coins) ==
              if first.out.Succeeded? then Listener(env, first.w, kind, from, to, coins[1..]) else first
  {
  }

  /** Coins after coins: the listener goes on where it stood. */
  lemma {:induction false} ListenerAppend(
      env: Env, w: World, kind: Kind, from: Address, to: Address, a: Coins, b: Coins)
    ensures var first := Listener(env, w, kind, from, to, a);
            Listener(env, w, kind, from, to, a + b) ==
              if first.out.Succeeded? then Listener(env, first.w, kind, from, to, b) else first
    decreases |a|
  {
    if a == [] {
      assert a + b == b;
    } else {
      var turn := Turn(env, w, kind, from, to, a[0]);
      FirstTurn(env, w, kind, from, to, a);
      FirstTurn(env, w, kind, from, to, a + b);
      assert (a + b)[1..] == a[1..] + b;
      if turn.out.Succeeded? {
        ListenerAppend(env, turn.w, kind, from, to, a[1..], b);
      }
    }
  }

  lemma ListenerInParts(env: Env, w: World, kind: Kind, from: Address, to: Address, coins: Coins, i: nat)
    requires i <= |coins| && Listener(env, w, kind, from, to, coins).out.Succeeded?
    ensures Listener(env, w, kind, from, to, coins[..i]).out.Succeeded?
    ensures Listener(env, Listener(env, w, kind, from, to, coins[..i]).w, kind, from, to, coins[i..])
            == Listener(env, w, kind, from, to, coins)
  {
    ListenerAppend(env, w, kind, from, to, coins[..i], coins[i..]);
    assert coins[..i] + coins[i..] == coins;
  }

  /** The hook of the i-th coin when its turn comes, after the coins before it. */
  function HookAtTurn(env: Env, w: World, kind: Kind, from: Address, to: Address, coins: Coins, i: nat): string
    requires i < |coins|
  {
    HookOf(Listener(env, w, kind, from, to, coins[..i]).w.st, coins[i].denom)
  }

  /** If the listener comes back without an error, each coin with a hook at its
      turn has a call on the trace, for exactly this transfer, that approved it. */
  lemma HooksApproved(env: Env, w: World, kind: Kind, from: Address, to: Address, coins: Coins, i: nat)
    requires i < |coins| && Listener(env, w, kind, from, to, coins).out.Succeeded?
    requires HookAtTurn(env, w, kind, from, to, coins, i) != ""
    ensures Call(kind, HookAtTurn(env, w, kind, from, to, coins, i), from, to, coins[i], true)
            in Listener(env, w, kind, from, to, coins).w.trace[|w.trace|..]
  {
    ListenerInParts(env, w, kind, from, to, coins, i);
    var turn := Listener(env, w, kind, from, to, coins[..i]).w;
    var r := CallHook(env, turn, kind, HookOf(turn.st, coins[i].denom), from, to, coins[i]);
    assert coins[i..][0] == coins[i];
    var trace := Listener(env, w, kind, from, to, coins).w.trace;
    assert r.w.trace <= trace;
    var k := |r.w.trace| - 1;
    assert trace[k] == r.w.trace[k];
    assert trace[|w.trace|..][k - |w.trace|] == trace[k];
  }

  /** The world that the hooks of a send leave behind, before balances move. */
  function Asked(env: Env, w: World, from: Address, to: Address, coins: Coins): World {
    Listener(env, Listener(env, w, Block, from, to, coins).w, Track, from, to, coins).w
  }

  /** A send succeeds if and only if no blocking hook objects and the transfer is
      possible on the state the hooks leave; tracking hooks have no say in it. */
  lemma SendSucceedsIff(env: Env, w: World, from: Address, to: Address, coins: Coins)
    ensures SendCoins(env, w, from, to, coins).out.Succeeded? <==>
              && Listener(env, w, Block, from, to, coins).out.Succeeded?
              && ValidCoins(coins)
              && Covers(Asked(env, w, from, to, coins).st.balances, from, coins)
  {
    TransferEffect(Asked(env, w, from, to, coins).st.balances, from, to, coins);
  }

  /** Without the blocking hook, nothing but the transfer itself can fail. */
  lemma TrackNeverBlocks(env: Env, w: World, from: Address, to: Address, coins: Coins)
    ensures SendWithoutBlockHook(env, w, from, to, coins).out.Succeeded? <==>
              && ValidCoins(coins)
              && Covers(Listener(env, w, Track, from, to, coins).w.st.balances, from, coins)
  {
    TransferEffect(Listener(env, w, Track, from, to, coins).w.st.balances, from, to, coins);
  }

  /** In every successful send, all approvals precede the movement of balances,
      and the movement is exactly the coins that were approved. */
  lemma ApprovedBeforeMoved(env: Env, w: World, from: Address, to: Address, coins: Coins)
    requires SendCoins(env, w, from, to, coins).out.Succeeded?
    ensures var asked := Asked(env, w, from, to, coins);
            var sent := SendCoins(env, w, from, to, coins).w;
            && (forall i :: 0 <= i < |coins| && HookAtTurn(env, w, Block, from, to, coins, i) != "" ==>
                  Call(Block, HookAtTurn(env, w, Block, from, to, coins, i), from, to, coins[i], true)
                  in asked.trace[|w.trace|..])
            && sent.trace == asked.trace
            && sent.st == asked.st.(balances := sent.st.balances)
            && (forall x, d :: Balance(sent.st.balances, x, d)
                               == Balance(asked.st.balances, x, d) - (if x == from then AmountOf(coins, d) else 0)
                                  + (if x == to then AmountOf(coins, d) else 0))
  {
    var blocked := Listener(env, w, Block, from, to, coins).w;
    var asked := Asked(env, w, from, to, coins);
    TransferEffect(asked.st.balances, from, to, coins);
    forall i | 0 <= i < |coins| && HookAtTurn(env, w, Block, from, to, coins, i) != ""
      ensures Call(Block, HookAtTurn(env, w, Block, from, to, coins, i), from, to, coins[i], true)
              in asked.trace[|w.trace|..]
    {
      HooksApproved(env, w, Block, from, to, coins, i);
      assert blocked.trace[|w.trace|..] <= asked.trace[|w.trace|..];
    }
  }

  // Multi-sends -----------------------------------------------------------------

  lemma {:induction false} AskInParts(env: Env, w: World, from: Address, outputs: seq<Party>, k: nat)
    requires k <= |outputs| && AskForOutputs(env, w, from, outputs).out.Succeeded?
    ensures AskForOutputs(env, w, from, outputs[..k]).out.Succeeded?
    ensures AskForOutputs(env, AskForOutputs(env, w, from, outputs[..k]).w, from, outputs[k..])
            == AskForOutputs(env, w, from, outputs)
    decreases k
  {
    if k == 0 {
      assert outputs[0..] == outputs;
    } else {
      var to := env.codec.decode(outputs[0].address).value;
      var w1 := Asked(env, w, from, to, outputs[0].coins);
      AskInParts(env, w1, from, outputs[1..], k - 1);
      assert outputs[..k][0] == outputs[0] && outputs[..k][1..] == outputs[1..][..k - 1];
      assert outputs[k..] == outputs[1..][k - 1..];
    }
  }

  /** In every successful multi-send, each output was asked for at its turn and
      approved, coin by coin, before any balance moved. */
  lemma MultiSendApproved(env: Env, w: World, from: Address, outputs: seq<Party>, k: nat, i: nat)
    requires AskForOutputs(env, w, from, outputs).out.Succeeded?
    requires k < |outputs| && i < |outputs[k].coins|
    ensures env.codec.decode(outputs[k].address).Some?
    ensures var turn := AskForOutputs(env, w, from, outputs[..k]).w;
            var to := env.codec.decode(outputs[k].address).value;
            var hook := HookAtTurn(env, turn, Block, from, to, outputs[k].coins, i);
            hook != "" ==>
              Call(Block, hook, from, to, outputs[k].coins[i], true)
              in AskForOutputs(env, w, from, outputs).w.trace[|w.trace|..]
  {
    AskInParts(env, w, from, outputs, k);
    var turn := AskForOutputs(env, w, from, outputs[..k]).w;
    var output := outputs[k];
    assert outputs[k..][0] == output;
    var to := env.codec.decode(output.address).value;
    var blocked := Listener(env, turn, Block, from, to, output.coins);
    if HookAtTurn(env, turn, Block, from, to, output.coins, i) != "" {
      HooksApproved(env, turn, Block, from, to, output.coins, i);
      var all := AskForOutputs(env, w, from, outputs).w.trace;
      assert w.trace <= turn.trace <= blocked.w.trace <= all;
      var call := Call(Block, HookAtTurn(env, turn, Block, from, to, output.coins, i), from, to, output.coins[i], true);
      LaterInTrace(call, w.trace, turn.trace, blocked.w.trace, all);
    }
  }

  lemma LaterInTrace(call: Call, a: seq<Call>, b: seq<Call>, c: seq<Call>, d: seq<Call>)
    requires a <= b <= c <= d && call in c[|b|..]
    ensures call in d[|a|..]
  {
    var k :| 0 <= k < |c[|b|..]| && c[|b|..][k] == call;
    assert c[|b| + k] == call && d[|b| + k] == call;
    assert d[|a|..][|b| + k - |a|] == call;
  }

  /** What the hooks of a multi-send were shown adds up, in every denom, to what
      the sender is debited, and all of it arrives. */
  lemma MultiSendMoves(env: Env, w: World, inputs: seq<Party>, outputs: seq<Party>)
    requires HandleMultiSend(env, w, inputs, outputs).out.Succeeded?
    ensures |inputs| == 1 && env.codec.decode(inputs[0].address).Some?
    ensures var from := env.codec.decode(inputs[0].address).value;
            var asked := AskForOutputs(env, w, from, outputs);
            var sent := HandleMultiSend(env, w, inputs, outputs).w;
            && asked.out.Succeeded?
            && sent.trace == asked.w.trace
            && (forall d :: TotalOf(outputs, d) == AmountOf(inputs[0].coins, d))
            && (forall x, d :: Balance(sent.st.balances, x, d)
                               == Balance(asked.w.st.balances, x, d) - (if x == from then TotalOf(outputs, d) else 0)
                                  + Receives(env.codec, outputs, x, d))
  {
    var from := env.codec.decode(inputs[0].address).value;
    var asked := AskForOutputs(env, w, from, outputs).w;
    forall d
      ensures TotalOf(outputs, d) == AmountOf(inputs[0].coins, d)
    {
      InputIsOutput(env.codec, inputs[0], outputs, d);
    }
    DistributeEffect(env.codec, asked.st.balances, inputs[0], outputs);
  }

  // ---------------------------------------------------------------------------
  // Charges
  // ---------------------------------------------------------------------------

  /** How many coins have a hook at their turn and are asked about, until the first
      objection. */
  function Turns(env: Env, w: World, kind: Kind, from: Address, to: Address, coins: Coins): (n: nat)
    ensures n <= |coins|
    decreases |coins|
  {
    if coins == [] then 0
    else
      var contract := HookOf(w.st, coins[0].denom);
      if contract == "" then Turns(env, w, kind, from, to, coins[1..])
      else if env.codec.decode(contract).None? then 0
      else
        var r := CallHook(env, w, kind, contract, from, to, coins[0]);
        1 + if r.out.Succeeded? then Turns(env, r.w, kind, from, to, coins[1..]) else 0
  }

  /** From one meter reading to the next, no more than `n` hook limits are charged,
      and no more than there was left. */
  predicate ChargedAtMost(w: World, w': World, n: nat) {
    w'.meter.consumed - w.meter.consumed <= Min(w.meter.Remaining(), n * HOOK_GAS_LIMIT)
  }

  lemma {:induction false} ListenerCharge(env: Env, w: World, kind: Kind, from: Address, to: Address, coins: Coins)
    requires !w.meter.Exhausted()
    ensures ChargedAtMost(w, Listener(env, w, kind, from, to, coins).w, Turns(env, w, kind, from, to, coins))
    decreases |coins|
  {
    if coins != [] {
      var contract := HookOf(w.st, coins[0].denom);
      if contract == "" {
        ListenerCharge(env, w, kind, from, to, coins[1..]);
      } else if env.codec.decode(contract).Some? {
        var r := CallHook(env, w, kind, contract, from, to, coins[0]);
        if r.out.Succeeded? {
          ListenerCharge(env, r.w, kind, from, to, coins[1..]);
        }
      }
    }
  }

  /** The turns of a send: those of the blocking pass, and of the tracking pass if
      there is one. */
  function SendTurns(env: Env, w: World, from: Address, to: Address, coins: Coins): (n: nat)
    ensures n <= 2 * |coins|
  {
    var blocked := Listener(env, w, Block, from, to, coins);
    Turns(env, w, Block, from, to, coins) +
    if blocked.out.Succeeded? then Turns(env, blocked.w, Track, from, to, coins) else 0
  }

  /** A send is charged at most one hook limit for each turn of a hooked coin, and
      never more than there is left. */
  lemma SendCharge(env: Env, w: World, from: Address, to: Address, coins: Coins)
    requires !w.meter.Exhausted()
    ensures ChargedAtMost(w, SendCoins(env, w, from, to, coins).w, SendTurns(env, w, from, to, coins))
  {
    var blocked := Listener(env, w, Block, from, to, coins);
    ListenerCharge(env, w, Block, from, to, coins);
    if blocked.out.Succeeded? {
      ListenerCharge(env, blocked.w, Track, from, to, coins);
    }
  }

  lemma UnblockedCharge(env: Env, w: World, from: Address, to: Address, coins: Coins)
    requires !w.meter.Exhausted()
    ensures ChargedAtMost(w, SendWithoutBlockHook(env, w, from, to, coins).w, Turns(env, w, Track, from, to, coins))
  {
    ListenerCharge(env, w, Track, from, to, coins);
  }

  function AskTurns(env: Env, w: World, from: Address, outputs: seq<Party>): nat
    decreases |outputs|
  {
    if outputs == [] then 0
    else
      match env.codec.decode(outputs[0].address)
      case None => 0
      case Some(to) =>
        if to in env.modules then 0
        else
          SendTurns(env, w, from, to, outputs[0].coins) +
          if Listener(env, w, Block, from, to, outputs[0].coins).out.Succeeded?
          then AskTurns(env, Asked(env, w, from, to, outputs[0].coins), from, outputs[1..]) else 0
  }

  /** The same for all outputs of a multi-send together. */
  lemma {:induction false} AskCharge(env: Env, w: World, from: Address, outputs: seq<Party>)
    requires !w.meter.Exhausted()
    ensures ChargedAtMost(w, AskForOutputs(env, w, from, outputs).w, AskTurns(env, w, from, outputs))
    decreases |outputs|
  {
    if outputs != [] && env.codec.decode(outputs[0].address).Some?
       && env.codec.decode(outputs[0].address).value !in env.modules {
      var to := env.codec.decode(outputs[0].address).value;
      SendCharge(env, w, from, to, outputs[0].coins);
      if Listener(env, w, Block, from, to, outputs[0].coins).out.Succeeded? {
        AskCharge(env, Asked(env, w, from, to, outputs[0].coins), from, outputs[1..]);
      }
    }
  }

  // ---------------------------------------------------------------------------
  // Burning
  // ---------------------------------------------------------------------------

  lemma SumAtLeast(b: Balances, a: Address, d: string)
    ensures Balance(b, a, d) <= Sum(b, d)
  {
    if (a, d) in b {
      SumWithout(b, (a, d), d);
    }
  }

  lemma BurnCoinsPossible(env: Env, st: State, coin: Coin)
    requires 0 < coin.amount <= Balance(st.balances, env.factory, coin.denom)
    requires coin.amount <= SupplyOf(st, coin.denom)
    ensures BurnCoins(env, st, coin).Some?
  {
    SubCoinsEffect(st.balances, env.factory, [coin]);
    forall d
      ensures AmountOf([coin], d) <= Balance(st.balances, env.factory, d)
    {
      PartIsAmount(coin, d);
    }
  }

  /** Once the coins to burn have been taken in, burning them cannot fail: the
      supply is never short, because it is backed. So a burn goes through exactly
      when its checks pass and the send into the module account does. */
  lemma BurnCompletes(env: Env, w: World, sender: string, coin: Coin)
    requires env.Valid() && Balanced(w.st)
    ensures HandleBurn(env, w, sender, coin).out.Succeeded? <==>
              && IsAddress(env, sender) && !IsModule(env, sender) && ValidCoin(coin)
              && IsAdmin(w.st, coin.denom, sender) && IsFactoryDenom(env, coin.denom)
              && SendCoins(env, w, env.codec.decode(sender).value, env.factory, [coin]).out.Succeeded?
  {
    if IsAddress(env, sender) && !IsModule(env, sender) && ValidCoin(coin) {
      var from := env.codec.decode(sender).value;
      var r := SendCoins(env, w, from, env.factory, [coin]);
      if r.out.Succeeded? {
        var mid := SendEvolves(env, w, from, env.factory, [coin]);
        TakenIsBacked(env, mid, from, coin);
        BurnCoinsPossible(env, r.w.st, coin);
      }
    }
  }

  lemma TakenIsBacked(env: Env, mid: State, from: Address, coin: Coin)
    requires Balanced(mid) && from != env.factory
    requires Transfer(mid.balances, from, env.factory, [coin]).Some?
    ensures coin.amount <= Balance(Taken(env, mid, from, coin).balances, env.factory, coin.denom)
    ensures coin.amount <= SupplyOf(Taken(env, mid, from, coin), coin.denom)
  {
    var taken := Taken(env, mid, from, coin);
    TransferHandsOut(env, mid, from, coin);
    assert Balance(mid.balances, env.factory, coin.denom)
        == Balance(taken.balances, env.factory, coin.denom) - Part(coin, coin.denom);
    assert Sum(mid.balances, coin.denom) == Sum(taken.balances, coin.denom);
    assert Sum(mid.balances, coin.denom) == SupplyOf(mid, coin.denom);
    SumAtLeast(taken.balances, env.factory, coin.denom);
  }
}
