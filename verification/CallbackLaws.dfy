/** Over every run, whatever applications and contracts do: the callbacks that are
    pending are those of the packets still in flight, and none runs twice.
  */
module CallbackLaws {
  import opened Options
  import opened Callbacks

  // ---------------------------------------------------------------------------
  // The invariant
  // ---------------------------------------------------------------------------

  /** No sequence is given out again. */
  ghost predicate Sequenced(c: Chain) {
    forall k :: k in c.sent ==> k.sequence < Next(c, k.port, k.channel)
  }

  /** Packets in flight, and those whose acknowledgement or timeout is just being
      handled, were sent. */
  ghost predicate Tracked(c: Chain, held: set<Key>) {
    c.commitments.Keys <= c.sent.Keys && held <= c.sent.Keys && held !! c.commitments.Keys
  }

  ghost predicate Awaits(c: Chain, held: set<Key>, k: Key) {
    k in c.sent && c.sent[k] != "" && (k in c.commitments || k in held)
  }

  /** Exactly the packets sent with a callback, and neither acknowledged nor timed
      out, have one pending, and it is the one they were sent with. */
  ghost predicate Exact(c: Chain, held: set<Key>) {
    && (forall k :: k in c.pending <==> Awaits(c, held, k))
    && (forall k :: k in c.pending ==> c.pending[k] == c.sent[k])
  }

  /** Packets with callbacks are recognised when they come back. */
  ghost predicate Recognised(c: Chain) {
    forall k :: k in c.commitments && k in c.sent && c.sent[k] != "" ==> !c.commitments[k].Foreign?
  }

  /** A notice goes to the packet's own callback, and only once the packet is settled. */
  ghost predicate Proper(c: Chain, held: set<Key>, n: Notice) {
    n.key in c.sent && c.sent[n.key] == n.contract && n.contract != "" && n.key !in c.commitments && n.key !in held
  }

  ghost predicate Once(c: Chain, held: set<Key>) {
    && (forall i :: 0 <= i < |c.told| ==> Proper(c, held, c.told[i]))
    && (forall i, j :: 0 <= i < j < |c.told| ==> c.told[i].key != c.told[j].key)
  }

  ghost predicate Inv(c: Chain, held: set<Key>) {
    Sequenced(c) && Tracked(c, held) && Exact(c, held) && Recognised(c) && Once(c, held)
  }

  /** What no step ever takes back. */
  ghost predicate Grows(c: Chain, c': Chain) {
    && (forall k :: k in c.sent ==> k in c'.sent && c'.sent[k] == c.sent[k])
    && (forall k :: k in c.sent && k !in c.commitments ==> k !in c'.commitments)
    && c.told <= c'.told
  }

  lemma GrowsTransitive(a: Chain, b: Chain, c: Chain)
    requires Grows(a, b) && Grows(b, c)
    ensures Grows(a, c)
  {
  }

  // ---------------------------------------------------------------------------
  // Steps
  // ---------------------------------------------------------------------------

  /** A new sequence has no packet, no callback and no notice yet. */
  lemma FreshKey(c: Chain, held: set<Key>, key: Key)
    requires Inv(c, held) && key.sequence == Next(c, key.port, key.channel)
    ensures key !in c.sent && key !in c.commitments && key !in held && key !in c.pending
    ensures forall i :: 0 <= i < |c.told| ==> c.told[i].key != key
  {
    forall i | 0 <= i < |c.told| ensures c.told[i].key != key {
      assert Proper(c, held, c.told[i]);
    }
  }

  /** A packet is sent, with or without a callback. */
  ghost predicate Sends(c: Chain, c': Chain, key: Key, data: Data, callback: string) {
    && key.sequence == Next(c, key.port, key.channel)
    && c'.next == c.next[(key.port, key.channel) := key.sequence + 1]
    && c'.sent == c.sent[key := callback]
    && c'.commitments == c.commitments[key := data]
    && c'.pending == (if callback == "" then c.pending else c.pending[key := callback])
    && c'.told == c.told
  }

  lemma SentKeeps(c: Chain, c': Chain, held: set<Key>, key: Key, data: Data, callback: string)
    requires Inv(c, held) && Sends(c, c', key, data, callback)
    requires callback != "" ==> !data.Foreign?
    ensures Inv(c', held) && Grows(c, c')
  {
    FreshKey(c, held, key);
    SentSequenced(c, c', key, callback);
    SentExact(c, c', held, key, data, callback);
    SentOnce(c, c', held, key, data, callback);
  }

  lemma SentSequenced(c: Chain, c': Chain, key: Key, callback: string)
    requires Sequenced(c) && key.sequence == Next(c, key.port, key.channel)
    requires c'.next == c.next[(key.port, key.channel) := key.sequence + 1] && c'.sent == c.sent[key := callback]
    ensures Sequenced(c')
  {
    forall k | k in c'.sent ensures k.sequence < Next(c', k.port, k.channel) {
      if k != key {
        assert k in c.sent;
        assert (k.port, k.channel) != (key.port, key.channel) ==>
               Next(c', k.port, k.channel) == Next(c, k.port, k.channel);
      }
    }
  }

  lemma SentExact(c: Chain, c': Chain, held: set<Key>, key: Key, data: Data, callback: string)
    requires Exact(c, held) && key !in c.sent && key !in held && key !in c.commitments && key !in c.pending
    requires c'.sent == c.sent[key := callback] && c'.commitments == c.commitments[key := data]
    requires c'.pending == if callback == "" then c.pending else c.pending[key := callback]
    ensures Exact(c', held)
  {
    forall k ensures k in c'.pending <==> Awaits(c', held, k) {
      assert k in c.pending <==> Awaits(c, held, k);
    }
  }

  lemma SentOnce(c: Chain, c': Chain, held: set<Key>, key: Key, data: Data, callback: string)
    requires Once(c, held) && key !in c.sent && c'.told == c.told
    requires c'.sent == c.sent[key := callback] && c'.commitments == c.commitments[key := data]
    ensures Once(c', held)
  {
    forall i | 0 <= i < |c'.told| ensures Proper(c', held, c'.told[i]) {
      assert Proper(c, held, c.told[i]);
    }
  }

  lemma SendKeeps(env: Env, c: Chain, held: set<Key>, port: string, channel: string, data: Data, accepted: bool)
    requires Inv(c, held)
    ensures Inv(AfterSend(env, c, port, channel, data, accepted), held)
    ensures Grows(c, AfterSend(env, c, port, channel, data, accepted))
  {
    var parsed := if data.Foreign? then NoHook else Parse(env, data.memo);
    var key := Key(port, channel, Next(c, port, channel));
    if parsed.Malformed? || !accepted {
    } else if parsed.NoHook? || parsed.data.callback == "" {
      SentKeeps(c, Commit(c, port, channel, data, ""), held, key, data, "");
    } else if env.codec.decode(parsed.data.callback).Some? {
      var out := WithMemo(data, Object(Stripped(env, data.memo.fields, parsed.data)));
      SentKeeps(c, AfterSend(env, c, port, channel, data, accepted), held, key, out, parsed.data.callback);
    }
  }

  /** While the application handles it, a packet is held. */
  lemma ReleaseKeeps(c: Chain, held: set<Key>, key: Key)
    requires Inv(c, held) && key in c.commitments
    ensures Inv(Released(c, key), held + {key}) && Grows(c, Released(c, key))
  {
    var c', held' := Released(c, key), held + {key};
    forall k ensures Awaits(c', held', k) <==> Awaits(c, held, k) {
    }
    forall i | 0 <= i < |c'.told| ensures Proper(c', held', c'.told[i]) {
      assert Proper(c, held, c.told[i]);
    }
  }

  /** Afterwards its callback is no longer pending. */
  lemma LetGoKeeps(before: Chain, c: Chain, held: set<Key>, key: Key)
    requires Inv(c, held + {key}) && key !in held && Grows(before, c)
    ensures var c' := c.(pending := c.pending - {key}); Inv(c', held) && Grows(before, c')
  {
    var c' := c.(pending := c.pending - {key});
    forall k ensures k in c'.pending <==> Awaits(c', held, k) {
      assert k in c.pending <==> Awaits(c, held + {key}, k);
    }
    forall i | 0 <= i < |c'.told| ensures Proper(c', held, c'.told[i]) {
      assert Proper(c, held + {key}, c.told[i]);
    }
  }

  lemma TellKeeps(c: Chain, held: set<Key>, key: Key, contract: string, event: Event)
    requires Inv(c, held) && Proper(c, held, Notice(key, contract, event))
    requires forall i :: 0 <= i < |c.told| ==> c.told[i].key != key
    ensures Inv(Told(c, key, contract, event), held) && Grows(c, Told(c, key, contract, event))
  {
    var c' := Told(c, key, contract, event);
    forall k ensures Awaits(c', held, k) <==> Awaits(c, held, k) {
    }
    forall i | 0 <= i < |c'.told| ensures Proper(c', held, c'.told[i]) {
      assert i < |c.told| ==> Proper(c, held, c.told[i]);
    }
  }

  lemma WriteKeeps(c: Chain, held: set<Key>, name: string, value: string)
    requires Inv(c, held)
    ensures var c' := c.(store := c.store[name := value]); Inv(c', held) && Grows(c, c')
  {
    var c' := c.(store := c.store[name := value]);
    forall k ensures Awaits(c', held, k) <==> Awaits(c, held, k) {
    }
    forall i | 0 <= i < |c'.told| ensures Proper(c', held, c'.told[i]) {
      assert Proper(c, held, c.told[i]);
    }
  }

  // ---------------------------------------------------------------------------
  // The nest of programs
  // ---------------------------------------------------------------------------

  lemma {:induction false} StepsKeep(env: Env, c: Chain, held: set<Key>, steps: seq<Step>)
    requires Inv(c, held)
    ensures Inv(RunSteps(env, c, steps), held) && Grows(c, RunSteps(env, c, steps))
    decreases steps
  {
    if steps != [] {
      var c1 := Run(env, c, steps[0]);
      RunKeeps(env, c, held, steps[0]);
      StepsKeep(env, c1, held, steps[1..]);
      GrowsTransitive(c, c1, RunSteps(env, c1, steps[1..]));
    }
  }

  lemma {:induction false} RunKeeps(env: Env, c: Chain, held: set<Key>, step: Step)
    requires Inv(c, held)
    ensures Inv(Run(env, c, step), held) && Grows(c, Run(env, c, step))
    decreases step, 2
  {
    match step
    case Write(name, value) => WriteKeeps(c, held, name, value);
    case SendPacket(port, channel, data, accepted) => SendKeeps(env, c, held, port, channel, data, accepted);
    case Resolve(_, _, _, _, _) => ResolveKeeps(env, c, held, step);
  }

  lemma {:induction false} ResolveKeeps(env: Env, c: Chain, held: set<Key>, step: Step)
    requires step.Resolve? && Inv(c, held)
    ensures Inv(AfterResolve(env, c, step), held) && Grows(c, AfterResolve(env, c, step))
    decreases step, 1
  {
    var key := step.key;
    if key in c.commitments && c.commitments[key] == step.data && step.app.ending == Returns {
      AppKeeps(env, c, held, step);
      AfterAppKeeps(env, c, RunSteps(env, Released(c, key), step.app.steps), held, step);
    }
  }

  lemma {:induction false} AfterAppKeeps(env: Env, before: Chain, c: Chain, held: set<Key>, step: Step)
    requires step.Resolve? && Inv(before, held)
    requires Inv(c, held + {step.key}) && Grows(before, c) && step.key !in held
    requires step.data.Foreign? ==> step.key !in c.pending
    ensures Inv(AfterApp(env, before, c, step), held) && Grows(before, AfterApp(env, before, c, step))
    decreases step, 0, 1
  {
    if step.key !in c.pending {
      NothingToTell(before, c, held, step.key);
    } else {
      ReadyToTell(before, c, held, step.key, EventOf(env, step.fate));
      CallbackKeeps(env, before, c.(pending := c.pending - {step.key}), held, c.pending[step.key], step);
    }
  }

  lemma NothingToTell(before: Chain, c: Chain, held: set<Key>, key: Key)
    requires Inv(c, held + {key}) && key !in held && key !in c.pending && Grows(before, c)
    ensures Inv(c, held)
  {
    LetGoKeeps(before, c, held, key);
    NothingToRemove(c, key);
  }

  lemma NothingToRemove(c: Chain, key: Key)
    requires key !in c.pending
    ensures c.(pending := c.pending - {key}) == c
  {
    assert c.pending - {key} == c.pending;
  }

  /** The callback of a packet that has just been settled has not run yet. */
  lemma ReadyToTell(before: Chain, c: Chain, held: set<Key>, key: Key, event: Event)
    requires Inv(c, held + {key}) && key !in held && key in c.pending && Grows(before, c)
    ensures var c' := c.(pending := c.pending - {key});
            && Inv(c', held)
            && Grows(before, c')
            && Proper(c', held, Notice(key, c.pending[key], event))
            && forall i :: 0 <= i < |c'.told| ==> c'.told[i].key != key
  {
    LetGoKeeps(before, c, held, key);
    assert Awaits(c, held + {key}, key);
    forall i | 0 <= i < |c.told| ensures c.told[i].key != key {
      assert Proper(c, held + {key}, c.told[i]);
    }
  }

  /** What holds when the application is done. */
  lemma {:induction false} AppKeeps(env: Env, c: Chain, held: set<Key>, step: Step)
    requires step.Resolve? && Inv(c, held)
    requires step.key in c.commitments && c.commitments[step.key] == step.data
    ensures var c1 := RunSteps(env, Released(c, step.key), step.app.steps);
            && Inv(c1, held + {step.key})
            && Grows(c, c1)
            && step.key in c1.sent && c1.sent[step.key] == c.sent[step.key]
            && (step.key in c1.pending <==> c.sent[step.key] != "")
            && (step.data.Foreign? ==> step.key !in c1.pending)
            && (step.key in c1.pending ==> c1.pending[step.key] == c.sent[step.key])
    decreases step, 0
  {
    var key := step.key;
    var c0 := Released(c, key);
    var c1 := RunSteps(env, c0, step.app.steps);
    ReleaseKeeps(c, held, key);
    StepsKeep(env, c0, held + {key}, step.app.steps);
    GrowsTransitive(c, c0, c1);
    assert key in c1.pending <==> Awaits(c1, held + {key}, key);
  }

  lemma {:induction false} CallbackKeeps(
      env: Env, before: Chain, c: Chain, held: set<Key>, contract: string, step: Step)
    requires step.Resolve? && Inv(before, held) && Inv(c, held) && Grows(before, c)
    requires Proper(c, held, Notice(step.key, contract, EventOf(env, step.fate)))
    requires forall i :: 0 <= i < |c.told| ==> c.told[i].key != step.key
    ensures var c' := AfterCallback(env, before, c, contract, step); Inv(c', held) && Grows(before, c')
    decreases step, 0, 0
  {
    var told := Told(c, step.key, contract, EventOf(env, step.fate));
    TellKeeps(c, held, step.key, contract, EventOf(env, step.fate));
    GrowsTransitive(before, c, told);
    if step.callback.ending == Returns {
      var done := RunSteps(env, told, step.callback.steps);
      StepsKeep(env, told, held, step.callback.steps);
      GrowsTransitive(before, told, done);
    }
  }

  // ---------------------------------------------------------------------------
  // Whole runs
  // ---------------------------------------------------------------------------

  function Start(store: map<string, string>): Chain {
    Chain(store, map[], map[], map[], map[], [])
  }

  /** In every run, the callbacks pending are exactly those of the packets sent with
      one that are neither acknowledged nor timed out. */
  lemma PendingIsExact(env: Env, store: map<string, string>, steps: seq<Step>)
    ensures var c := RunSteps(env, Start(store), steps);
            c.pending == map k | k in c.commitments && k in c.sent && c.sent[k] != "" :: c.sent[k]
  {
    StepsKeep(env, Start(store), {}, steps);
    var c := RunSteps(env, Start(store), steps);
    forall k ensures k in c.pending <==> k in c.commitments && k in c.sent && c.sent[k] != "" {
      assert k in c.pending <==> Awaits(c, {}, k);
    }
  }

  /** In every run, no packet's callback runs twice, none runs while the packet is in
      flight, and what runs is the callback that the packet was sent with. */
  lemma AtMostOnce(env: Env, store: map<string, string>, steps: seq<Step>)
    ensures var c := RunSteps(env, Start(store), steps);
            && (forall i, j :: 0 <= i < j < |c.told| ==> c.told[i].key != c.told[j].key)
            && (forall i :: 0 <= i < |c.told| ==>
                  var n := c.told[i];
                  n.key in c.sent && c.sent[n.key] == n.contract && n.key !in c.commitments && n.key !in c.pending)
  {
    StepsKeep(env, Start(store), {}, steps);
    var c := RunSteps(env, Start(store), steps);
    forall i | 0 <= i < |c.told|
      ensures c.told[i].key in c.sent && c.sent[c.told[i].key] == c.told[i].contract
      ensures c.told[i].key !in c.commitments && c.told[i].key !in c.pending
    {
      assert Proper(c, {}, c.told[i]);
      assert c.told[i].key in c.pending <==> Awaits(c, {}, c.told[i].key);
    }
  }

  /** Notices are only added, and none about `k`. */
  ghost predicate Silent(c: Chain, c': Chain, k: Key) {
    c.told <= c'.told && forall i :: |c.told| <= i < |c'.told| ==> c'.told[i].key != k
  }

  /** Then or never: once a packet is settled, nothing that happens later runs its
      callback. */
  lemma {:induction false} SettledIsSilent(env: Env, c: Chain, held: set<Key>, steps: seq<Step>, k: Key)
    requires Inv(c, held) && k in c.sent && k !in c.commitments
    ensures Silent(c, RunSteps(env, c, steps), k)
    decreases steps
  {
    if steps != [] {
      StepIsSilent(env, c, held, steps[0], k);
      RunKeeps(env, c, held, steps[0]);
      SettledIsSilent(env, Run(env, c, steps[0]), held, steps[1..], k);
    }
  }

  lemma {:induction false} StepIsSilent(env: Env, c: Chain, held: set<Key>, step: Step, k: Key)
    requires Inv(c, held) && k in c.sent && k !in c.commitments
    ensures Silent(c, Run(env, c, step), k)
    decreases step, 1
  {
    if step.Resolve? && step.key in c.commitments && c.commitments[step.key] == step.data {
      var c0 := Released(c, step.key);
      ReleaseKeeps(c, held, step.key);
      SettledIsSilent(env, c0, held + {step.key}, step.app.steps, k);
      AppKeeps(env, c, held, step);
      AfterAppIsSilent(env, c, RunSteps(env, c0, step.app.steps), held, step, k);
    }
  }

  lemma {:induction false} AfterAppIsSilent(env: Env, before: Chain, c: Chain, held: set<Key>, step: Step, k: Key)
    requires step.Resolve? && step.key != k && k in c.sent && k !in c.commitments
    requires Inv(c, held + {step.key}) && Grows(before, c) && step.key !in held
    requires Silent(before, c, k)
    ensures Silent(before, AfterApp(env, before, c, step), k)
    decreases step, 0, 1
  {
    if step.key in c.pending {
      ReadyToTell(before, c, held, step.key, EventOf(env, step.fate));
      CallbackIsSilent(env, before, c.(pending := c.pending - {step.key}), held, c.pending[step.key], step, k);
    }
  }

  lemma {:induction false} CallbackIsSilent(
      env: Env, before: Chain, c: Chain, held: set<Key>, contract: string, step: Step, k: Key)
    requires step.Resolve? && step.key != k && k in c.sent && k !in c.commitments
    requires Inv(c, held) && Silent(before, c, k)
    requires Proper(c, held, Notice(step.key, contract, EventOf(env, step.fate)))
    requires forall i :: 0 <= i < |c.told| ==> c.told[i].key != step.key
    ensures Silent(before, AfterCallback(env, before, c, contract, step), k)
    decreases step, 0, 0
  {
    var told := Told(c, step.key, contract, EventOf(env, step.fate));
    TellKeeps(c, held, step.key, contract, EventOf(env, step.fate));
    SettledIsSilent(env, told, held, step.callback.steps, k);
  }

  // ---------------------------------------------------------------------------
  // Isolation
  // ---------------------------------------------------------------------------

  /** Does the channel hold the packet, and does the application accept its fate? */
  predicate Handled(c: Chain, step: Step)
    requires step.Resolve?
  {
    step.key in c.commitments && c.commitments[step.key] == step.data && step.app.ending == Returns
  }

  /** What the application leaves, with the callback's entry removed. */
  function AppOnly(env: Env, c: Chain, step: Step): Chain
    requires step.Resolve?
  {
    var c1 := RunSteps(env, Released(c, step.key), step.app.steps);
    c1.(pending := c1.pending - {step.key})
  }

  function Verdict(env: Env, c: Chain, step: Step, contract: string): Chain
    requires step.Resolve?
  {
    var app := AppOnly(env, c, step);
    var told := Told(app, step.key, contract, EventOf(env, step.fate));
    if contract == "" || !Admitted(env, app, contract) then app
    else if step.callback.ending == Panics then c
    else if step.callback.ending == Errors then told
    else RunSteps(env, told, step.callback.steps)
  }

  /** After an acknowledgement or timeout the chain is either as the application
      left it, with the entry removed, or that with the whole callback on top; or
      nothing has happened at all. Which of these is known from what the packet was
      sent with: an error of the callback takes back the callback alone, a panic
      everything. */
  lemma Isolation(env: Env, c: Chain, held: set<Key>, step: Step)
    requires Inv(c, held) && step.Resolve?
    ensures !Handled(c, step) ==> Run(env, c, step) == c
    ensures Handled(c, step) ==> step.key in c.sent && Run(env, c, step) == Verdict(env, c, step, c.sent[step.key])
  {
    if Handled(c, step) {
      AppKeeps(env, c, held, step);
      var c1 := RunSteps(env, Released(c, step.key), step.app.steps);
      assert Run(env, c, step) == AfterApp(env, c, c1, step);
      if step.key !in c1.pending {
        NothingToRemove(c1, step.key);
      } else {
        assert Run(env, c, step) == AfterCallback(env, c, AppOnly(env, c, step), c.sent[step.key], step);
      }
    }
  }

  /** The callback is told, first of all that it does, which packet this is and what
      became of it: the acknowledgement and whether it is a success, or the timeout. */
  lemma NoticeSays(env: Env, c: Chain, step: Step)
    requires Inv(c, {}) && step.Resolve? && Handled(c, step) && step.callback.ending != Panics
    requires step.key in c.sent && c.sent[step.key] != "" && env.codec.decode(c.sent[step.key]).Some?
    requires env.allowed(AppOnly(env, c, step).store, env.codec.decode(c.sent[step.key]).value) == Some(true)
    ensures var n := |AppOnly(env, c, step).told|;
            var told := Run(env, c, step).told;
            && n < |told| && told[..n] == AppOnly(env, c, step).told
            && match step.fate
               case Acknowledged(ack) =>
                 told[n] == Notice(step.key, c.sent[step.key], IbcAck(ack, !env.isAckError(ack)))
               case TimedOut => told[n] == Notice(step.key, c.sent[step.key], IbcTimeout)
  {
    TellingGrows(env, c, step);
    ComesNext(AppOnly(env, c, step).told, Notice(step.key, c.sent[step.key], EventOf(env, step.fate)),
              Run(env, c, step).told);
  }

  lemma ComesNext(a: seq<Notice>, n: Notice, whole: seq<Notice>)
    requires a + [n] <= whole
    ensures |a| < |whole| && whole[|a|] == n && whole[..|a|] == a
  {
    assert (a + [n])[|a|] == n;
  }

  /** Nothing that the callback does takes back that it was told. */
  lemma TellingGrows(env: Env, c: Chain, step: Step)
    requires Inv(c, {}) && step.Resolve? && Handled(c, step) && step.callback.ending != Panics
    requires step.key in c.sent && c.sent[step.key] != "" && Admitted(env, AppOnly(env, c, step), c.sent[step.key])
    ensures AppOnly(env, c, step).told + [Notice(step.key, c.sent[step.key], EventOf(env, step.fate))]
            <= Run(env, c, step).told
  {
    Isolation(env, c, {}, step);
    if step.callback.ending == Returns {
      ToldStepsKeep(env, c, step);
    }
  }

  lemma ToldStepsKeep(env: Env, c: Chain, step: Step)
    requires Inv(c, {}) && step.Resolve? && Handled(c, step) && step.key in c.sent && c.sent[step.key] != ""
    ensures var told := Told(AppOnly(env, c, step), step.key, c.sent[step.key], EventOf(env, step.fate));
            Grows(told, RunSteps(env, told, step.callback.steps))
  {
    var app := AppOnly(env, c, step);
    var c1 := RunSteps(env, Released(c, step.key), step.app.steps);
    AppKeeps(env, c, {}, step);
    ReadyToTell(c, c1, {}, step.key, EventOf(env, step.fate));
    TellKeeps(app, {}, step.key, c.sent[step.key], EventOf(env, step.fate));
    StepsKeep(env, Told(app, step.key, c.sent[step.key], EventOf(env, step.fate)), {}, step.callback.steps);
  }

  /** A packet without callback, or with one that is no address or not allowed, is
      settled by the application alone, and nobody is told. */
  lemma NobodyIsTold(env: Env, c: Chain, step: Step)
    requires Inv(c, {}) && step.Resolve? && Handled(c, step) && step.key in c.sent
    requires c.sent[step.key] == "" || env.codec.decode(c.sent[step.key]).None? ||
             env.allowed(AppOnly(env, c, step).store, env.codec.decode(c.sent[step.key]).value) != Some(true)
    ensures Run(env, c, step) == AppOnly(env, c, step)
  {
    Isolation(env, c, {}, step);
  }

  /** Is there a callback, and does it run into a panic? */
  predicate Derailed(env: Env, c: Chain, step: Step)
    requires step.Resolve? && step.key in c.sent
  {
    var contract := c.sent[step.key];
    contract != "" && Admitted(env, AppOnly(env, c, step), contract) && step.callback.ending == Panics
  }

  /** The application's part stands, alone or with the callback on top. */
  ghost predicate Stands(env: Env, c: Chain, step: Step)
    requires step.Resolve? && step.key in c.sent
  {
    var app := AppOnly(env, c, step);
    var told := Told(app, step.key, c.sent[step.key], EventOf(env, step.fate));
    Run(env, c, step) in {app, told, RunSteps(env, told, step.callback.steps)}
  }

  /** The packet is settled, and the application's part stands, if and only if its
      callback does not panic; an error makes no difference. Otherwise nothing has
      happened. */
  lemma SettledIff(env: Env, c: Chain, step: Step)
    requires Inv(c, {}) && step.Resolve? && Handled(c, step)
    ensures step.key in Run(env, c, step).sent && step.key in c.sent
    ensures step.key !in Run(env, c, step).commitments <==> !Derailed(env, c, step)
    ensures Stands(env, c, step) <==> !Derailed(env, c, step)
    ensures Derailed(env, c, step) ==> Run(env, c, step) == c
  {
    Isolation(env, c, {}, step);
    if Derailed(env, c, step) {
      PartsAreSettled(env, c, step);
    } else {
      NotDerailed(env, c, step);
    }
  }

  /** Once the application is done, the packet is no longer in flight, whatever the
      callback does. */
  lemma PartsAreSettled(env: Env, c: Chain, step: Step)
    requires Inv(c, {}) && step.Resolve? && Handled(c, step) && step.key in c.sent
    requires c.sent[step.key] != ""
    ensures var app := AppOnly(env, c, step);
            var told := Told(app, step.key, c.sent[step.key], EventOf(env, step.fate));
            && step.key in app.sent && step.key !in app.commitments
            && step.key !in RunSteps(env, told, step.callback.steps).commitments
            && step.key in RunSteps(env, told, step.callback.steps).sent
  {
    var app := AppOnly(env, c, step);
    var c1 := RunSteps(env, Released(c, step.key), step.app.steps);
    AppKeeps(env, c, {}, step);
    ReadyToTell(c, c1, {}, step.key, EventOf(env, step.fate));
    TellKeeps(app, {}, step.key, c.sent[step.key], EventOf(env, step.fate));
    StepsKeep(env, Told(app, step.key, c.sent[step.key], EventOf(env, step.fate)), {}, step.callback.steps);
  }

  lemma NotDerailed(env: Env, c: Chain, step: Step)
    requires Inv(c, {}) && step.Resolve? && Handled(c, step) && step.key in c.sent && !Derailed(env, c, step)
    ensures step.key in Run(env, c, step).sent && step.key !in Run(env, c, step).commitments
  {
    Isolation(env, c, {}, step);
    AppKeeps(env, c, {}, step);
    if c.sent[step.key] != "" {
      PartsAreSettled(env, c, step);
    }
  }

  /** A settled packet stays settled: its entry never comes back, and nothing that
      happens later runs its callback. */
  lemma SettledForGood(env: Env, c: Chain, step: Step, later: seq<Step>)
    requires Inv(c, {}) && step.Resolve? && Handled(c, step) && step.key in c.sent && !Derailed(env, c, step)
    ensures var c1 := Run(env, c, step);
            var c2 := RunSteps(env, c1, later);
            && step.key !in c1.pending
            && step.key !in c2.commitments && step.key !in c2.pending
            && Silent(c1, c2, step.key)
  {
    var c1 := Run(env, c, step);
    RunKeeps(env, c, {}, step);
    SettledIff(env, c, step);
    StepsKeep(env, c1, {}, later);
    SettledIsSilent(env, c1, {}, later, step.key);
    var c2 := RunSteps(env, c1, later);
    assert step.key in c1.pending <==> Awaits(c1, {}, step.key);
    assert step.key in c2.pending <==> Awaits(c2, {}, step.key);
  }

  // ---------------------------------------------------------------------------
  // A concrete case
  // ---------------------------------------------------------------------------

  const PACKET := Key("transfer", "channel-0", 1)
  const REFUND := Program([Write("refunded", "yes")], Returns)

  /** A transfer on a new chain that names `contract` as its callback. */
  function ExampleSend(env: Env, contract: string): Step {
    SendPacket(PACKET.port, PACKET.channel,
               Ics20("", Object(map[MEMO_KEY := env.printHook(HookData(None, contract))])), true)
  }

  const BARE := Ics20("", Object(map[]))

  lemma ExampleSent(env: Env, contract: string)
    requires env.Valid() && env.codec.decode(contract).Some?
    ensures var c := Run(env, Start(map[]), ExampleSend(env, contract));
            && c.commitments == map[PACKET := BARE] && c.pending == map[PACKET := contract]
            && c.sent == map[PACKET := contract] && c.store == map[] && c.told == []
            && Inv(c, {})
  {
    var h := HookData(None, contract);
    var fields := map[MEMO_KEY := env.printHook(h)];
    assert Parse(env, Object(fields)) == Hook(h);
    assert Stripped(env, fields, h) == map[];
    RunKeeps(env, Start(map[]), {}, ExampleSend(env, contract));
  }

  /** The packet times out, the application refunds, and the callback ends so. */
  function ExampleTimeout(ending: Ending): Step {
    Resolve(PACKET, BARE, TimedOut, REFUND, Program([], ending))
  }

  /** With every codec and every contract that is admitted: if the callback panics,
      the refund is gone, and packet and callback are pending as before; if it fails
      with an error, the refund stands, and both are settled. */
  lemma PanicExample(env: Env, contract: string)
    requires env.Valid() && env.codec.decode(contract).Some?
    requires forall store :: env.allowed(store, env.codec.decode(contract).value) == Some(true)
    ensures var c := Run(env, Start(map[]), ExampleSend(env, contract));
            var panicked, failed := Run(env, c, ExampleTimeout(Panics)), Run(env, c, ExampleTimeout(Errors));
            && panicked == c
            && "refunded" !in panicked.store && PACKET in panicked.commitments && PACKET in panicked.pending
            && "refunded" in failed.store && PACKET !in failed.commitments && PACKET !in failed.pending
  {
    var c := Run(env, Start(map[]), ExampleSend(env, contract));
    ExampleSent(env, contract);
    Isolation(env, c, {}, ExampleTimeout(Panics));
    Isolation(env, c, {}, ExampleTimeout(Errors));
    ExampleRefund(env, c);
  }

  lemma ExampleRefund(env: Env, c: Chain)
    requires PACKET in c.commitments
    ensures var app := RunSteps(env, Released(c, PACKET), REFUND.steps);
            app == c.(commitments := c.commitments - {PACKET}, store := c.store["refunded" := "yes"])
  {
    var steps := REFUND.steps;
    var c1 := Run(env, Released(c, PACKET), steps[0]);
    assert steps[1..] == [];
    assert RunSteps(env, c1, []) == c1;
  }
}
