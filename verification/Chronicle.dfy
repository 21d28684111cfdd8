/** Who may change what. The admins, metadata, creators and hooks of denoms are the
    replay of a journal of messages, and each message in the journal was sent by
    the admin that the denom had when the sender was checked.

    The journal is part of the state and rolled back with it, so that it holds the
    messages that took effect, in the order in which they did. A mint or a creation
    takes effect after the hooks inside it; its check came before them. Each entry
    therefore says how long the journal was when its sender was checked.
  */
module Chronicle {
  import opened Denoms
  import opened Ledger

  // ---------------------------------------------------------------------------
  // Replaying
  // ---------------------------------------------------------------------------

  datatype Books = Books(
    admins: map<string, string>,
    metadata: map<string, Metadata>,
    creators: set<(string, string)>,
    hooks: map<string, string>)

  function BooksOf(st: State): Books {
    Books(st.admins, st.metadata, st.creators, st.hooks)
  }

  function DenomOf(deed: Deed): string {
    match deed
    case Minted(coin) => coin.denom
    case Burned(coin) => coin.denom
    case MetadataSet(md) => md.base
    case _ => deed.denom
  }

  function Defaulted(metadata: map<string, Metadata>, denom: string): map<string, Metadata> {
    if denom in metadata then metadata else metadata[denom := DefaultMetadata(denom)]
  }

  /** One entry's effect on the books. */
  function Enact(b: Books, e: Entry): Books {
    match e.deed
    case Created(d) =>
      Books(b.admins[d := e.sender], Defaulted(b.metadata, d), b.creators + {(e.sender, d)}, b.hooks)
    case AdminSet(d, admin) => b.(admins := b.admins[d := admin])
    case MetadataSet(md) => b.(metadata := b.metadata[md.base := md])
    case HookSet(d, contract) => b.(hooks := WithHook(b.hooks, d, contract))
    case _ => b
  }

  function Replay(b: Books, log: seq<Entry>): Books
    decreases |log|
  {
    if log == [] then b else Enact(Replay(b, log[..|log| - 1]), log[|log| - 1])
  }

  lemma {:induction false} ReplayAppend(b: Books, x: seq<Entry>, y: seq<Entry>)
    ensures Replay(b, x + y) == Replay(Replay(b, x), y)
    decreases |y|
  {
    if y == [] {
      assert x + y == x;
    } else {
      ReplayAppend(b, x, y[..|y| - 1]);
      assert (x + y)[..|x + y| - 1] == x + y[..|y| - 1];
    }
  }

  // ---------------------------------------------------------------------------
  // Warrants
  // ---------------------------------------------------------------------------

  ghost predicate BuiltFrom(c: string, d: string) {
    '/' !in c && exists s :: d == FactoryDenom(c, s)
  }

  predicate ValidAdmin(env: Env, admin: string) {
    admin == "" || env.codec.decode(admin).Some?
  }

  /** Deeds that take effect right where they are checked. */
  predicate Immediate(deed: Deed) {
    deed.AdminSet? || deed.MetadataSet? || deed.HookSet?
  }

  predicate Sensible(env: Env, deed: Deed) {
    match deed
    case AdminSet(_, admin) => ValidAdmin(env, admin)
    case MetadataSet(md) => env.validMetadata(md)
    case HookSet(_, contract) => contract == "" || env.codec.decode(contract).Some?
    case Minted(coin) => coin.amount > 0
    case Burned(coin) => coin.amount > 0
    case Created(_) => true
  }

  /** May the sender do this, by these books? A denom without metadata is created by
      the one in its name; for the rest there is an admin, who is not the empty
      string. */
  ghost predicate Rightful(env: Env, b: Books, e: Entry) {
    var d := DenomOf(e.deed);
    && Sensible(env, e.deed)
    && if e.deed.Created? then d !in b.metadata && BuiltFrom(e.sender, d)
       else e.sender != "" && d in b.admins && b.admins[d] == e.sender
  }

  /** The sender signed the message, or a contract could sign for them. */
  predicate Signed(env: Env, signers: set<string>, e: Entry) {
    e.sender in signers || CanSign(env, e.sender)
  }

  /** Entry `k` was rightful by the books as they were at its check, if those were
      `b` when the journal had length `start`. */
  ghost predicate Warranted(env: Env, b: Books, start: nat, journal: seq<Entry>, signers: set<string>, k: nat)
    requires start <= k < |journal|
  {
    var e := journal[k];
    && start <= e.since <= k
    && (Immediate(e.deed) ==> e.since == k)
    && Rightful(env, Replay(b, journal[start..e.since]), e)
    && Signed(env, signers, e)
  }

  ghost predicate AllWarranted(env: Env, b: Books, start: nat, journal: seq<Entry>, signers: set<string>) {
    forall k :: start <= k < |journal| ==> Warranted(env, b, start, journal, signers, k)
  }

  ghost predicate Chronicled(env: Env, b: Books, j: seq<Entry>, b': Books, j': seq<Entry>, signers: set<string>) {
    && j <= j'
    && b' == Replay(b, j'[|j|..])
    && AllWarranted(env, b, |j|, j', signers)
  }

  /** From one state to the other, the books changed as the journal says, and each
      entry that the journal gained is warranted. */
  ghost predicate Follows(env: Env, st: State, st': State, signers: set<string>) {
    Chronicled(env, BooksOf(st), st.journal, BooksOf(st'), st'.journal, signers)
  }

  lemma FollowsReflexive(env: Env, st: State, signers: set<string>)
    ensures Follows(env, st, st, signers)
  {
    assert st.journal[|st.journal|..] == [];
  }

  lemma FollowsMore(env: Env, st: State, st': State, signers: set<string>, more: set<string>)
    requires Follows(env, st, st', signers)
    requires forall s :: s in signers ==> s in more || CanSign(env, s)
    ensures Follows(env, st, st', more)
  {
    forall k | |st.journal| <= k < |st'.journal|
      ensures Warranted(env, BooksOf(st), |st.journal|, st'.journal, more, k)
    {
      assert Warranted(env, BooksOf(st), |st.journal|, st'.journal, signers, k);
    }
  }

  lemma FollowsTransitive(env: Env, a: State, b: State, c: State, signers: set<string>)
    requires Follows(env, a, b, signers) && Follows(env, b, c, signers)
    ensures Follows(env, a, c, signers)
  {
    ReplayTo(BooksOf(a), a.journal, b.journal, c.journal, |c.journal|);
    assert c.journal[..|c.journal|] == c.journal;
    assert c.journal[|a.journal|..|c.journal|] == c.journal[|a.journal|..];
    assert c.journal[|b.journal|..|c.journal|] == c.journal[|b.journal|..];
    forall k | |a.journal| <= k < |c.journal|
      ensures Warranted(env, BooksOf(a), |a.journal|, c.journal, signers, k)
    {
      if k < |b.journal| {
        assert Warranted(env, BooksOf(a), |a.journal|, b.journal, signers, k);
        assert c.journal[k] == b.journal[k];
        assert c.journal[|a.journal|..c.journal[k].since] == b.journal[|a.journal|..c.journal[k].since];
      } else {
        assert Warranted(env, BooksOf(b), |b.journal|, c.journal, signers, k);
        ReplayTo(BooksOf(a), a.journal, b.journal, c.journal, c.journal[k].since);
      }
    }
  }

  /** Replaying up to index `n` can stop over at the end of `y`. */
  lemma ReplayTo(b: Books, x: seq<Entry>, y: seq<Entry>, z: seq<Entry>, n: nat)
    requires x <= y <= z && |y| <= n <= |z|
    ensures Replay(Replay(b, y[|x|..]), z[|y|..n]) == Replay(b, z[|x|..n])
  {
    ReplayAppend(b, y[|x|..], z[|y|..n]);
    assert z[|x|..n] == y[|x|..] + z[|y|..n];
  }

  /** After anything that follows, one more entry, checked at the beginning. */
  lemma FollowsNote(env: Env, st: State, mid: State, st': State, e: Entry, signers: set<string>)
    requires Follows(env, st, mid, signers)
    requires e.since == |st.journal| && (Immediate(e.deed) ==> mid.journal == st.journal)
    requires Rightful(env, BooksOf(st), e) && Signed(env, signers, e)
    requires st'.journal == mid.journal + [e] && BooksOf(st') == Enact(BooksOf(mid), e)
    ensures Follows(env, st, st', signers)
  {
    var start := |st.journal|;
    var log := st'.journal[start..];
    assert log[..|log| - 1] == mid.journal[start..];
    forall k | start <= k < |st'.journal|
      ensures Warranted(env, BooksOf(st), start, st'.journal, signers, k)
    {
      if k < |mid.journal| {
        assert Warranted(env, BooksOf(st), start, mid.journal, signers, k);
        assert st'.journal[k] == mid.journal[k];
        assert st'.journal[start..mid.journal[k].since] == mid.journal[start..mid.journal[k].since];
      } else {
        assert st'.journal[start..start] == [];
      }
    }
  }

  // ---------------------------------------------------------------------------
  // What a log leaves alone
  // ---------------------------------------------------------------------------

  /** What is listed stays listed. */
  lemma {:induction false} ReplayGrows(b: Books, log: seq<Entry>)
    ensures b.admins.Keys <= Replay(b, log).admins.Keys
    ensures b.metadata.Keys <= Replay(b, log).metadata.Keys
    ensures b.creators <= Replay(b, log).creators
    decreases |log|
  {
    if log != [] {
      ReplayGrows(b, log[..|log| - 1]);
    }
  }

  predicate SetsAdmin(deed: Deed, d: string) {
    (deed.AdminSet? || deed.Created?) && deed.denom == d
  }

  function BookHook(b: Books, d: string): string {
    if d in b.hooks then b.hooks[d] else ""
  }

  /** The admin of a denom stays unless an entry sets it. */
  lemma {:induction false} AdminStays(b: Books, log: seq<Entry>, d: string)
    requires d in b.admins && forall k :: 0 <= k < |log| ==> !SetsAdmin(log[k].deed, d)
    ensures d in Replay(b, log).admins && Replay(b, log).admins[d] == b.admins[d]
    decreases |log|
  {
    if log != [] {
      AdminStays(b, log[..|log| - 1], d);
      assert !SetsAdmin(log[|log| - 1].deed, d);
    }
  }

  /** Whoever is newly listed as a creator has an entry. */
  lemma {:induction false} ListedWasCreated(b: Books, log: seq<Entry>, p: (string, string)) returns (k: nat)
    requires p in Replay(b, log).creators && p !in b.creators
    ensures k < |log| && log[k].deed == Created(p.1) && log[k].sender == p.0
    decreases |log|
  {
    var n := |log| - 1;
    if p in Replay(b, log[..n]).creators {
      k := ListedWasCreated(b, log[..n], p);
    } else {
      k := n;
    }
  }

  // ---------------------------------------------------------------------------
  // The last word
  // ---------------------------------------------------------------------------

  /** The admin that the last change of admin in a log names, if there is one. */
  function LastAdmin(log: seq<Entry>, d: string, was: string): string
    decreases |log|
  {
    if log == [] then was
    else
      match log[|log| - 1].deed
      case AdminSet(denom, admin) => if denom == d then admin else LastAdmin(log[..|log| - 1], d, was)
      case _ => LastAdmin(log[..|log| - 1], d, was)
  }

  function LastMetadata(log: seq<Entry>, d: string, was: Metadata): Metadata
    decreases |log|
  {
    if log == [] then was
    else
      match log[|log| - 1].deed
      case MetadataSet(md) => if md.base == d then md else LastMetadata(log[..|log| - 1], d, was)
      case _ => LastMetadata(log[..|log| - 1], d, was)
  }

  function LastHook(log: seq<Entry>, d: string, was: string): string
    decreases |log|
  {
    if log == [] then was
    else
      match log[|log| - 1].deed
      case HookSet(denom, contract) => if denom == d then contract else LastHook(log[..|log| - 1], d, was)
      case _ => LastHook(log[..|log| - 1], d, was)
  }

  /** For a denom that is recorded already, the last entry of each kind decides. */
  lemma {:induction false} LastWord(b: Books, log: seq<Entry>, d: string)
    requires d in b.admins && d in b.metadata
    requires forall k :: 0 <= k < |log| ==> log[k].deed != Created(d)
    ensures d in Replay(b, log).admins && Replay(b, log).admins[d] == LastAdmin(log, d, b.admins[d])
    ensures d in Replay(b, log).metadata && Replay(b, log).metadata[d] == LastMetadata(log, d, b.metadata[d])
    ensures BookHook(Replay(b, log), d) == LastHook(log, d, BookHook(b, d))
    decreases |log|
  {
    if log != [] {
      LastWord(b, log[..|log| - 1], d);
      assert log[|log| - 1].deed != Created(d);
    }
  }

  /** A denom that is recorded already is not created again. */
  lemma NotCreatedAgain(env: Env, b: Books, j: seq<Entry>, j': seq<Entry>, signers: set<string>, d: string, k: nat)
    requires j <= j' && AllWarranted(env, b, |j|, j', signers)
    requires d in b.metadata && |j| <= k < |j'|
    ensures j'[k].deed != Created(d)
  {
    assert Warranted(env, b, |j|, j', signers, k);
    ReplayGrows(b, j'[|j|..j'[k].since]);
  }

  // ---------------------------------------------------------------------------
  // Hooks
  // ---------------------------------------------------------------------------

  /** Hooks are addresses, and denoms that have one have an admin. */
  ghost predicate ValidHooks(env: Env, b: Books) {
    forall d :: d in b.hooks ==> d in b.admins && env.codec.decode(b.hooks[d]).Some?
  }

  lemma {:induction false} HooksStayValid(
      env: Env, b: Books, j: seq<Entry>, j': seq<Entry>, signers: set<string>, n: nat)
    requires j <= j' && AllWarranted(env, b, |j|, j', signers) && ValidHooks(env, b)
    requires |j| <= n <= |j'|
    ensures ValidHooks(env, Replay(b, j'[|j|..n]))
    decreases n
  {
    var log := j'[|j|..n];
    if log != [] {
      var before := Replay(b, j'[|j|..n - 1]);
      HooksStayValid(env, b, j, j', signers, n - 1);
      assert log[..|log| - 1] == j'[|j|..n - 1] && log[|log| - 1] == j'[n - 1];
      assert Warranted(env, b, |j|, j', signers, n - 1);
      EnactKeepsHooks(env, before, j'[n - 1]);
    }
  }

  lemma EnactKeepsHooks(env: Env, b: Books, e: Entry)
    requires ValidHooks(env, b) && (e.deed.HookSet? ==> Rightful(env, b, e))
    ensures ValidHooks(env, Enact(b, e))
  {
  }

  lemma FollowsKeepsHooks(env: Env, st: State, st': State, signers: set<string>)
    requires Follows(env, st, st', signers) && ValidHooks(env, BooksOf(st))
    ensures ValidHooks(env, BooksOf(st'))
  {
    HooksStayValid(env, BooksOf(st), st.journal, st'.journal, signers, |st'.journal|);
    assert st'.journal[|st.journal|..|st'.journal|] == st'.journal[|st.journal|..];
  }

  // ---------------------------------------------------------------------------
  // Denoms that nobody can act on
  // ---------------------------------------------------------------------------

  /** Recorded, with an admin that is renounced or neither signs nor lets sign. */
  predicate OutOfReach(env: Env, b: Books, signers: set<string>, d: string) {
    && d in b.admins && d in b.metadata
    && (b.admins[d] == "" || (b.admins[d] !in signers && !CanSign(env, b.admins[d])))
  }

  /** No entry is about such a denom. */
  lemma {:induction false} NothingAbout(env: Env, b: Books, j: seq<Entry>, j': seq<Entry>, signers: set<string>,
                                        d: string, k: nat)
    requires j <= j' && AllWarranted(env, b, |j|, j', signers)
    requires OutOfReach(env, b, signers, d) && |j| <= k < |j'|
    ensures DenomOf(j'[k].deed) != d
    decreases k
  {
    var e := j'[k];
    assert Warranted(env, b, |j|, j', signers, k);
    var log := j'[|j|..e.since];
    forall i | 0 <= i < |log| ensures DenomOf(log[i].deed) != d {
      NothingAbout(env, b, j, j', signers, d, |j| + i);
    }
    AdminStays(b, log, d);
    ReplayGrows(b, log);
  }

  lemma {:induction false} NoWord(log: seq<Entry>, d: string, admin: string, md: Metadata, hook: string)
    requires forall k :: 0 <= k < |log| ==> DenomOf(log[k].deed) != d
    ensures LastAdmin(log, d, admin) == admin && LastMetadata(log, d, md) == md && LastHook(log, d, hook) == hook
    decreases |log|
  {
    if log != [] {
      NoWord(log[..|log| - 1], d, admin, md, hook);
      assert DenomOf(log[|log| - 1].deed) != d;
    }
  }

  /** Such a denom keeps its admin, its metadata and its hook. */
  lemma OutOfReachStays(env: Env, st: State, st': State, signers: set<string>, d: string)
    requires Follows(env, st, st', signers) && OutOfReach(env, BooksOf(st), signers, d)
    ensures d in st'.admins && st'.admins[d] == st.admins[d]
    ensures d in st'.metadata && st'.metadata[d] == st.metadata[d]
    ensures HookOf(st', d) == HookOf(st, d)
    ensures forall k :: |st.journal| <= k < |st'.journal| ==> DenomOf(st'.journal[k].deed) != d
  {
    var log := st'.journal[|st.journal|..];
    forall k | |st.journal| <= k < |st'.journal| ensures DenomOf(st'.journal[k].deed) != d {
      NothingAbout(env, BooksOf(st), st.journal, st'.journal, signers, d, k);
    }
    LastWord(BooksOf(st), log, d);
    NoWord(log, d, st.admins[d], st.metadata[d], HookOf(st, d));
  }
}
