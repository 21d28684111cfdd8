/** Asynchronous callbacks of IBC transfers: a packet may be sent with the name of a
    contract that is to be told how the packet fared.

    What applications and contracts do is given as finite trees of steps: a program
    is what the application's own handler or the notified contract did in the end.
    Statements about all programs are statements about all applications and
    contracts. Programs may send packets and even relay acknowledgements and
    timeouts themselves, to any depth.

    Channels are those of ICS-04: sequences on a channel are never reused, and a
    packet is acknowledged or timed out only while its commitment stands. A message
    that fails, or panics, leaves nothing behind.
  */
module Callbacks {
  import opened Options
  import opened Denoms

  // ---------------------------------------------------------------------------
  // Memos
  // ---------------------------------------------------------------------------

  const MEMO_KEY := "wasm"

  datatype HookData = HookData(message: Option<string>, callback: string)

  /** A memo that is no JSON object is just text. */
  datatype Memo = Text(text: string) | Object(fields: map<string, string>)

  /** Whether packet data is a fungible or non-fungible transfer, or anything else. */
  datatype Data = Ics20(rest: string, memo: Memo) | Ics721(rest: string, memo: Memo) | Foreign(bytes: string)

  datatype Env = Env(
    codec: Codec,
    parseHook: string -> Option<HookData>,   // JSON of hook data, unknown fields refused
    printHook: HookData -> string,
    reprint: string -> string,               // other JSON values, decoded and printed again
    isAckError: string -> bool,
    allowed: (map<string, string>, Address) -> Option<bool>)   // the access list, as stored
  {
    ghost predicate Valid() {
      codec.Valid() && forall h :: parseHook(printHook(h)) == Some(h)
    }
  }

  datatype Parsed = NoHook | Malformed | Hook(data: HookData)

  /** `parseHookData` */
  function Parse(env: Env, memo: Memo): Parsed {
    if memo.Text? || MEMO_KEY !in memo.fields then NoHook
    else
      match env.parseHook(memo.fields[MEMO_KEY])
      case None => Malformed
      case Some(h) => Hook(h)
  }

  /** The memo that goes out in place of one with a callback. */
  function Stripped(env: Env, fields: map<string, string>, h: HookData): map<string, string> {
    var others := map k | k in fields && k != MEMO_KEY :: env.reprint(fields[k]);
    if h.message.None? then others else others[MEMO_KEY := env.printHook(h.(callback := ""))]
  }

  /** The counterparty never sees the callback, but sees the message and all other
      entries of the memo. */
  lemma StrippedHidesCallback(env: Env, fields: map<string, string>, h: HookData)
    requires env.Valid() && Parse(env, Object(fields)) == Hook(h)
    ensures var out := Stripped(env, fields, h);
            && Parse(env, Object(out)) == (if h.message.None? then NoHook else Hook(HookData(h.message, "")))
            && out.Keys - {MEMO_KEY} == fields.Keys - {MEMO_KEY}
  {
    assert h.message.Some? ==> env.parseHook(env.printHook(h.(callback := ""))) == Some(h.(callback := ""));
  }

  // ---------------------------------------------------------------------------
  // The chain
  // ---------------------------------------------------------------------------

  datatype Key = Key(port: string, channel: string, sequence: nat)

  /** What a relayer reports of a packet, and what a contract is told of it. */
  datatype Fate = Acknowledged(ack: string) | TimedOut
  datatype Event = IbcAck(ack: string, success: bool) | IbcTimeout

  function EventOf(env: Env, fate: Fate): Event {
    match fate
    case Acknowledged(ack) => IbcAck(ack, !env.isAckError(ack))
    case TimedOut => IbcTimeout
  }

  /** A contract was told what became of a packet. */
  datatype Notice = Notice(key: Key, contract: string, event: Event)

  datatype Chain = Chain(
    store: map<string, string>,          // everything else
    next: map<(string, string), nat>,    // next sequences; they start at 1
    commitments: map<Key, Data>,         // packets neither acknowledged nor timed out
    pending: map<Key, string>,           // callbacks
    sent: map<Key, string>,              // history: the callback each packet was sent with, if any
    told: seq<Notice>)                   // history: callbacks that ran

  function Next(c: Chain, port: string, channel: string): nat {
    if (port, channel) in c.next then c.next[(port, channel)] else 1
  }

  // ---------------------------------------------------------------------------
  // Programs
  // ---------------------------------------------------------------------------

  datatype Ending = Returns | Errors | Panics

  datatype Program = Program(steps: seq<Step>, ending: Ending)

  datatype Step =
    | Write(name: string, value: string)
    | SendPacket(port: string, channel: string, data: Data, accepted: bool)
    | Resolve(key: Key, data: Data, fate: Fate, app: Program, callback: Program)

  /** The steps of a program in turn; one that fails is the program's to handle. */
  function RunSteps(env: Env, c: Chain, steps: seq<Step>): Chain
    decreases steps
  {
    if steps == [] then c else RunSteps(env, Run(env, c, steps[0]), steps[1..])
  }

  /** A step takes effect whole or not at all. */
  function Run(env: Env, c: Chain, step: Step): Chain
    decreases step, 2
  {
    match step
    case Write(name, value) => c.(store := c.store[name := value])
    case SendPacket(port, channel, data, accepted) => AfterSend(env, c, port, channel, data, accepted)
    case Resolve(_, _, _, _, _) => AfterResolve(env, c, step)
  }

  // ---------------------------------------------------------------------------
  // Sending
  // ---------------------------------------------------------------------------

  /** The channel takes the packet, unless it refuses for reasons of its own. */
  function Commit(c: Chain, port: string, channel: string, data: Data, callback: string): Chain {
    var key := Key(port, channel, Next(c, port, channel));
    c.(next := c.next[(port, channel) := key.sequence + 1],
       commitments := c.commitments[key := data],
       sent := c.sent[key := callback])
  }

  function WithMemo(data: Data, memo: Memo): Data
    requires !data.Foreign?
  {
    if data.Ics20? then Ics20(data.rest, memo) else Ics721(data.rest, memo)
  }

  function AfterSend(env: Env, c: Chain, port: string, channel: string, data: Data, accepted: bool): Chain {
    var parsed := if data.Foreign? then NoHook else Parse(env, data.memo);
    if parsed.Malformed? || !accepted then c
    else if parsed.NoHook? || parsed.data.callback == "" then Commit(c, port, channel, data, "")
    else if env.codec.decode(parsed.data.callback).None? then c
    else
      var out := WithMemo(data, Object(Stripped(env, data.memo.fields, parsed.data)));
      var key := Key(port, channel, Next(c, port, channel));
      var c' := Commit(c, port, channel, out, parsed.data.callback);
      c'.(pending := c'.pending[key := parsed.data.callback])
  }

  /** What goes out names no callback. */
  lemma SentHidesCallback(env: Env, c: Chain, port: string, channel: string, data: Data, accepted: bool)
    requires env.Valid() && Key(port, channel, Next(c, port, channel)) !in c.commitments
    ensures var c' := AfterSend(env, c, port, channel, data, accepted);
            var key := Key(port, channel, Next(c, port, channel));
            key in c'.commitments && !c'.commitments[key].Foreign? ==>
              var out := Parse(env, c'.commitments[key].memo);
              out.NoHook? || (out.Hook? && out.data.callback == "")
  {
    if !data.Foreign? && Parse(env, data.memo).Hook? {
      StrippedHidesCallback(env, data.memo.fields, Parse(env, data.memo).data);
    }
  }

  /** The key that the next packet on a channel gets. */
  function NextKey(c: Chain, port: string, channel: string): Key {
    Key(port, channel, if (port, channel) in c.next then c.next[(port, channel)] else 1)
  }

  /** One packet more has been sent, as `key`, with this data. */
  ghost predicate OneMore(c: Chain, c': Chain, key: Key, data: Data, callback: string) {
    && c'.next == c.next[(key.port, key.channel) := key.sequence + 1]
    && c'.commitments == c.commitments[key := data]
    && c'.sent == c.sent[key := callback]
    && c'.store == c.store && c'.told == c.told
  }

  /** A transfer whose memo names a callback, with or without a message: if the
      channel takes it, the callback is registered under the packet's key. The packet
      is of the same kind and has the same contents but for the memo, in which only
      the message is left under the key of hooks, and the other entries are printed
      again. */
  lemma SendWithCallback(
      env: Env, c: Chain, port: string, channel: string, data: Data, fields: map<string, string>, h: HookData)
    requires env.Valid() && !data.Foreign? && data.memo == Object(fields)
    requires "wasm" in fields && env.parseHook(fields["wasm"]) == Some(h)
    requires h.callback != "" && env.codec.decode(h.callback).Some?
    ensures AfterSend(env, c, port, channel, data, false) == c
    ensures var c' := AfterSend(env, c, port, channel, data, true);
            var key := NextKey(c, port, channel);
            && key in c'.commitments
            && var out := c'.commitments[key];
            && OneMore(c, c', key, out, h.callback)
            && c'.pending == c.pending[key := h.callback]
            && !out.Foreign? && (out.Ics20? <==> data.Ics20?) && out.rest == data.rest && out.memo.Object?
            && ("wasm" in out.memo.fields <==> h.message.Some?)
            && (h.message.Some? ==> env.parseHook(out.memo.fields["wasm"]) == Some(HookData(h.message, "")))
            && (forall k :: k != "wasm" ==> (k in out.memo.fields <==> k in fields))
            && (forall k :: k != "wasm" && k in fields ==> out.memo.fields[k] == env.reprint(fields[k]))
  {
    StrippedExactly(env, fields, h);
    assert Parse(env, data.memo) == Hook(h);
    assert AfterSend(env, c, port, channel, data, true).commitments[NextKey(c, port, channel)] ==
           WithMemo(data, Object(Stripped(env, fields, h)));
  }

  lemma StrippedExactly(env: Env, fields: map<string, string>, h: HookData)
    requires env.Valid()
    ensures var out := Stripped(env, fields, h);
            && ("wasm" in out <==> h.message.Some?)
            && (h.message.Some? ==> env.parseHook(out["wasm"]) == Some(HookData(h.message, "")))
            && (forall k :: k != "wasm" ==> (k in out <==> k in fields))
            && (forall k :: k != "wasm" && k in fields ==> out[k] == env.reprint(fields[k]))
  {
    assert h.message.Some? ==> env.parseHook(env.printHook(h.(callback := ""))) == Some(h.(callback := ""));
  }

  /** Does the data name a callback? Not if it is no transfer, or its memo is no
      object, or has no entry for hooks, or one with an empty callback. */
  ghost predicate NamesNone(env: Env, data: Data) {
    data.Foreign? || data.memo.Text? || "wasm" !in data.memo.fields ||
    (exists h :: env.parseHook(data.memo.fields["wasm"]) == Some(h) && h.callback == "")
  }

  /** Such a packet goes out as it is, and nothing is registered. */
  lemma SendWithoutCallback(env: Env, c: Chain, port: string, channel: string, data: Data)
    requires NamesNone(env, data)
    ensures AfterSend(env, c, port, channel, data, false) == c
    ensures var c' := AfterSend(env, c, port, channel, data, true);
            OneMore(c, c', NextKey(c, port, channel), data, "") && c'.pending == c.pending
  {
  }

  /** A transfer whose entry for hooks does not parse, or names a callback that is no
      address, is not sent. */
  lemma SendRefused(env: Env, c: Chain, port: string, channel: string, data: Data, accepted: bool)
    requires !data.Foreign? && data.memo.Object? && "wasm" in data.memo.fields
    requires match env.parseHook(data.memo.fields["wasm"])
             case None => true
             case Some(h) => h.callback != "" && env.codec.decode(h.callback).None?
    ensures AfterSend(env, c, port, channel, data, accepted) == c
  {
  }

  // ---------------------------------------------------------------------------
  // Acknowledgements and timeouts
  // ---------------------------------------------------------------------------

  /** May the callback be told? */
  predicate Admitted(env: Env, c: Chain, contract: string) {
    env.codec.decode(contract).Some? && env.allowed(c.store, env.codec.decode(contract).value) == Some(true)
  }

  /** The chain as the callback finds it. */
  function Released(c: Chain, key: Key): Chain {
    c.(commitments := c.commitments - {key})
  }

  function Told(c: Chain, key: Key, contract: string, event: Event): Chain {
    c.(told := c.told + [Notice(key, contract, event)])
  }

  /** First the application, then the callback if there is one. */
  function AfterResolve(env: Env, c: Chain, step: Step): Chain
    requires step.Resolve?
    decreases step, 1
  {
    var key := step.key;
    if key !in c.commitments || c.commitments[key] != step.data then c
    else
      var c1 := RunSteps(env, Released(c, key), step.app.steps);
      if step.app.ending != Returns then c else AfterApp(env, c, c1, step)
  }

  /** The entry is taken out before anything is done with it. */
  function AfterApp(env: Env, before: Chain, c: Chain, step: Step): Chain
    requires step.Resolve?
    decreases step, 0, 1
  {
    if step.data.Foreign? || step.key !in c.pending then c
    else AfterCallback(env, before, c.(pending := c.pending - {step.key}), c.pending[step.key], step)
  }

  /** The callback runs in a cache: an error undoes what it did and no more. A panic
      undoes the whole message. */
  function AfterCallback(env: Env, before: Chain, c: Chain, contract: string, step: Step): Chain
    requires step.Resolve?
    decreases step, 0, 0
  {
    var told := Told(c, step.key, contract, EventOf(env, step.fate));
    if !Admitted(env, c, contract) then c
    else
      match step.callback.ending
      case Returns => RunSteps(env, told, step.callback.steps)
      case Errors => told
      case Panics => before
  }

  /** Steps take effect one after the other. */
  lemma {:induction false} StepsInTurn(env: Env, c: Chain, a: seq<Step>, b: seq<Step>)
    ensures RunSteps(env, c, a + b) == RunSteps(env, RunSteps(env, c, a), b)
    ensures |b| == 1 ==> RunSteps(env, c, a + b) == Run(env, RunSteps(env, c, a), b[0])
    decreases |a|
  {
    if a == [] {
      assert a + b == b;
      if |b| == 1 {
        assert RunSteps(env, Run(env, c, b[0]), b[1..]) == Run(env, c, b[0]);
      }
    } else {
      assert (a + b)[1..] == a[1..] + b;
      StepsInTurn(env, Run(env, c, a[0]), a[1..], b);
    }
  }
}
