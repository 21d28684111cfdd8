/** The middleware as it runs: it updates the stores in place, with caches for what
    may have to be taken back. Each method is proved to do what module Callbacks
    says, so that the laws of module CallbackLaws are laws of this code.
  */
module Middleware {
  import opened Options
  import opened Callbacks

  class Hooks {
    const env: Env

    var store: map<string, string>
    var next: map<(string, string), nat>
    var commitments: map<Key, Data>
    var pending: map<Key, string>

    // History, which no decision depends on.
    var sent: map<Key, string>
    var told: seq<Notice>

    function Now(): Chain
      reads this
    {
      Chain(store, next, commitments, pending, sent, told)
    }

    constructor (env: Env, store: map<string, string>)
      ensures this.env == env && Now() == Chain(store, map[], map[], map[], map[], [])
    {
      this.env, this.store := env, store;
      next, commitments, pending, sent, told := map[], map[], map[], map[], [];
    }

    method Restore(cached: Chain)
      modifies this
      ensures Now() == cached
    {
      store, next, commitments := cached.store, cached.next, cached.commitments;
      pending, sent, told := cached.pending, cached.sent, cached.told;
    }

    // -------------------------------------------------------------------------
    // Sending
    // -------------------------------------------------------------------------

    // The channel's own send.
    method WrappedSend(port: string, channel: string, data: Data, callback: string) returns (sequence: nat)
      modifies this
      ensures sequence == Next(old(Now()), port, channel)
      ensures Now() == Commit(old(Now()), port, channel, data, callback)
    {
      sequence := if (port, channel) in next then next[(port, channel)] else 1;
      next := next[(port, channel) := sequence + 1];
      commitments := commitments[Key(port, channel, sequence) := data];
      sent := sent[Key(port, channel, sequence) := callback];
    }

    // A send that is refused, here or by the channel, has no sequence.
    method SendPacketOverride(port: string, channel: string, data: Data, accepted: bool) returns (sequence: Option<nat>)
      modifies this
      ensures Now() == AfterSend(env, old(Now()), port, channel, data, accepted)
      ensures sequence.Some? ==> sequence.value == Next(old(Now()), port, channel)
      ensures sequence.None? ==> Now() == old(Now())
    {
      var parsed := if data.Foreign? then NoHook else Parse(env, data.memo);
      if parsed.Malformed? {
        return None;
      }
      if parsed.NoHook? || parsed.data.callback == "" {
        if !accepted {
          return None;
        }
        var plain := WrappedSend(port, channel, data, "");
        return Some(plain);
      }
      var callback := parsed.data.callback;
      if env.codec.decode(callback).None? {
        return None;
      }
      var memo := EditMemo(data.memo.fields, parsed.data);
      if !accepted {
        return None;
      }
      var number := WrappedSend(port, channel, WithMemo(data, Object(memo)), callback);
      pending := pending[Key(port, channel, number) := callback];
      return Some(number);
    }

    method EditMemo(fields: map<string, string>, h: HookData) returns (memo: map<string, string>)
      ensures memo == Stripped(env, fields, h)
    {
      memo := map k | k in fields :: env.reprint(fields[k]);
      if h.message.None? {
        memo := memo - {MEMO_KEY};
      } else {
        memo := memo[MEMO_KEY := env.printHook(h.(callback := ""))];
      }
    }

    // -------------------------------------------------------------------------
    // Programs
    // -------------------------------------------------------------------------

    method RunAll(steps: seq<Step>)
      modifies this
      ensures Now() == RunSteps(env, old(Now()), steps)
      decreases steps
    {
      var k := 0;
      while k < |steps|
        invariant 0 <= k <= |steps|
        invariant RunSteps(env, old(Now()), steps) == RunSteps(env, Now(), steps[k..])
      {
        assert steps[k..][1..] == steps[k + 1..];
        RunOne(steps[k]);
        k := k + 1;
      }
    }

    method RunOne(step: Step)
      modifies this
      ensures Now() == Run(env, old(Now()), step)
      decreases step, 4
    {
      match step
      case Write(name, value) => store := store[name := value];
      case SendPacket(port, channel, data, accepted) => var _ := SendPacketOverride(port, channel, data, accepted);
      case Resolve(_, _, _, _, _) => Relay(step);
    }

    // -------------------------------------------------------------------------
    // Acknowledgements and timeouts
    // -------------------------------------------------------------------------

    // The channel passes on what it still waits for, and takes everything back if
    // the handler fails.
    method Relay(step: Step)
      requires step.Resolve?
      modifies this
      ensures Now() == AfterResolve(env, old(Now()), step)
      decreases step, 3
    {
      if step.key !in commitments || commitments[step.key] != step.data {
        return;
      }
      var cached := Now();
      commitments := commitments - {step.key};
      var ok := OnFate(cached, step);
      if !ok {
        Restore(cached);
      }
    }

    method OnFate(ghost before: Chain, step: Step) returns (ok: bool)
      requires step.Resolve?
      modifies this
      ensures (if ok then Now() else before) ==
                if step.app.ending != Returns then before
                else AfterApp(env, before, RunSteps(env, old(Now()), step.app.steps), step)
      decreases step, 2
    {
      RunAll(step.app.steps);
      if step.app.ending != Returns {
        return false;
      }
      if step.data.Foreign? || step.key !in pending {
        return true;
      }
      var contract := pending[step.key];
      pending := pending - {step.key};
      ok := RunCallback(before, contract, step);
    }

    method RunCallback(ghost before: Chain, contract: string, step: Step) returns (ok: bool)
      requires step.Resolve?
      modifies this
      ensures (if ok then Now() else before) == AfterCallback(env, before, old(Now()), contract, step)
      decreases step, 1
    {
      if !CheckAccess(contract) {
        return true;
      }
      told := told + [Notice(step.key, contract, EventOf(env, step.fate))];
      var cached := Now();
      RunAll(step.callback.steps);
      match step.callback.ending
      case Returns =>
        return true;
      case Errors =>
        Restore(cached);
        return true;
      case Panics =>
        return false;
    }

    predicate CheckAccess(contract: string)
      reads this
    {
      match env.codec.decode(contract)
      case None => false
      case Some(a) => env.allowed(store, a) == Some(true)
    }
  }
}
