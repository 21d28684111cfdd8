/** The genesis of the token factory: its validation, import and export, and that a
    chain which exports its state and starts again from it loses nothing but what
    genesis does not carry: hooks, and the spelling of creators.
  */
module Genesis {
  import opened Options
  import opened Denoms
  import opened Bank
  import opened Ledger
  import opened Chronicle
  import opened LedgerLaws
  import opened LedgerNest
  import opened LedgerTheorems
  import opened Keeper

  datatype GenesisDenom = GenesisDenom(denom: string, admin: string)
  datatype GenesisState = GenesisState(params: Params, denoms: seq<GenesisDenom>)

  // ---------------------------------------------------------------------------
  // Validation
  // ---------------------------------------------------------------------------

  predicate ValidEntry(env: Env, g: GenesisDenom) {
    IsFactoryDenom(env, g.denom) && ValidAdmin(env, g.admin)
  }

  predicate ValidEntries(env: Env, denoms: seq<GenesisDenom>) {
    forall k :: 0 <= k < |denoms| ==> ValidEntry(env, denoms[k])
  }

  predicate Distinct(denoms: seq<GenesisDenom>) {
    forall i, j :: 0 <= i < j < |denoms| ==> denoms[i].denom != denoms[j].denom
  }

  predicate ValidGenesis(env: Env, gs: GenesisState) {
    ValidCoins(gs.params.fee) && ValidEntries(env, gs.denoms) && Distinct(gs.denoms)
  }

  method Validate(env: Env, gs: GenesisState) returns (ok: bool)
    ensures ok == ValidGenesis(env, gs)
  {
    if !ValidCoins(gs.params.fee) {
      return false;
    }
    var seen: set<string> := {};
    for k := 0 to |gs.denoms|
      invariant forall d :: d in seen <==> exists i :: 0 <= i < k && gs.denoms[i].denom == d
      invariant ValidEntries(env, gs.denoms[..k]) && Distinct(gs.denoms[..k])
    {
      var g := gs.denoms[k];
      if g.denom in seen {
        return false;
      }
      seen := seen + {g.denom};
      if !IsFactoryDenom(env, g.denom) {
        return false;
      }
      if g.admin != "" && env.codec.decode(g.admin).None? {
        return false;
      }
      assert gs.denoms[..k + 1] == gs.denoms[..k] + [g];
    }
    assert gs.denoms[..|gs.denoms|] == gs.denoms;
    return true;
  }

  // ---------------------------------------------------------------------------
  // Import
  // ---------------------------------------------------------------------------

  /** The creator named in a denom, in canonical form. */
  function CreatorOf(env: Env, denom: string): string
    requires IsFactoryDenom(env, denom)
  {
    DeconstructDenom(env.codec, denom).value.0
  }

  function ImportDenom(env: Env, st: State, g: GenesisDenom): State
    requires IsFactoryDenom(env, g.denom)
  {
    var added := AddDenom(st, CreatorOf(env, g.denom), g.denom);
    added.(admins := added.admins[g.denom := g.admin])
  }

  /** The state after the import, unless it panics. */
  function ImportDenoms(env: Env, st: State, denoms: seq<GenesisDenom>): Option<State>
    decreases |denoms|
  {
    if denoms == [] then Some(st)
    else if !ValidEntry(env, denoms[0]) then None
    else ImportDenoms(env, ImportDenom(env, st, denoms[0]), denoms[1..])
  }

  function Import(env: Env, st: State, gs: GenesisState): Option<State> {
    ImportDenoms(env, st.(params := gs.params), gs.denoms)
  }

  method InitGenesis(k: Keepers, gs: GenesisState) returns (ok: bool)
    modifies k
    ensures ok == Import(k.env, old(k.Stores()), gs).Some?
    ensures ok ==> k.Now() == old(k.Now()).(st := Import(k.env, old(k.Stores()), gs).value)
  {
    k.params := gs.params;
    var i := 0;
    while i < |gs.denoms|
      invariant 0 <= i <= |gs.denoms|
      invariant k.Now() == old(k.Now()).(st := k.Stores())
      invariant Import(k.env, old(k.Stores()), gs) == ImportDenoms(k.env, k.Stores(), gs.denoms[i..])
    {
      var g := gs.denoms[i];
      assert gs.denoms[i..][1..] == gs.denoms[i + 1..];
      var parts := DeconstructDenom(k.env.codec, g.denom);
      if parts.Bad? {
        return false;
      }
      k.CreateDenomAfterValidation(parts.value.0, g.denom);
      if !ValidAdmin(k.env, g.admin) {
        return false;
      }
      k.admins := k.admins[g.denom := g.admin];
      i := i + 1;
    }
    return true;
  }

  /** A token factory without denoms, next to a bank in any state. */
  predicate Blank(st: State) {
    st.admins == map[] && st.creators == {} && st.hooks == map[]
  }

  /** What an import adds to the index of creators. */
  function Creations(env: Env, denoms: seq<GenesisDenom>): set<(string, string)>
    requires ValidEntries(env, denoms)
    decreases |denoms|
  {
    if denoms == [] then {} else {(CreatorOf(env, denoms[0].denom), denoms[0].denom)} + Creations(env, denoms[1..])
  }

  function AdminsAfter(admins: map<string, string>, denoms: seq<GenesisDenom>): map<string, string>
    decreases |denoms|
  {
    if denoms == [] then admins else AdminsAfter(admins[denoms[0].denom := denoms[0].admin], denoms[1..])
  }

  function MetadataAfter(metadata: map<string, Metadata>, denoms: seq<GenesisDenom>): map<string, Metadata>
    decreases |denoms|
  {
    if denoms == [] then metadata else MetadataAfter(Defaulted(metadata, denoms[0].denom), denoms[1..])
  }

  ghost function Names(denoms: seq<GenesisDenom>): set<string> {
    set g | g in denoms :: g.denom
  }

  /** Metadata with defaults for those denoms that have none. */
  ghost function WithDefaults(metadata: map<string, Metadata>, names: set<string>): map<string, Metadata> {
    map d | d in metadata.Keys + names :: if d in metadata then metadata[d] else DefaultMetadata(d)
  }

  /** The admins in `denoms`, on top of those in `was`. */
  ghost predicate Administers(now: map<string, string>, was: map<string, string>, denoms: seq<GenesisDenom>) {
    && now.Keys == was.Keys + Names(denoms)
    && (forall k :: 0 <= k < |denoms| ==> now[denoms[k].denom] == denoms[k].admin)
    && (forall d :: d in was && d !in Names(denoms) ==> now[d] == was[d])
  }

  /** An import panics exactly if some entry is invalid. */
  lemma {:induction false} ImportSucceedsIff(env: Env, st: State, denoms: seq<GenesisDenom>)
    ensures ImportDenoms(env, st, denoms).Some? <==> ValidEntries(env, denoms)
    decreases |denoms|
  {
    if denoms != [] && ValidEntry(env, denoms[0]) {
      ImportSucceedsIff(env, ImportDenom(env, st, denoms[0]), denoms[1..]);
      assert denoms == [denoms[0]] + denoms[1..];
    }
  }

  lemma ImportOne(env: Env, st: State, g: GenesisDenom)
    requires IsFactoryDenom(env, g.denom)
    ensures ImportDenom(env, st, g) == st.(admins := st.admins[g.denom := g.admin],
                                           creators := st.creators + {(CreatorOf(env, g.denom), g.denom)},
                                           metadata := Defaulted(st.metadata, g.denom))
  {
    assert st.admins[g.denom := CreatorOf(env, g.denom)][g.denom := g.admin] == st.admins[g.denom := g.admin];
  }

  /** The stores after an import, one by one. */
  lemma {:induction false} ImportEffect(env: Env, st: State, denoms: seq<GenesisDenom>)
    requires ValidEntries(env, denoms)
    ensures ImportDenoms(env, st, denoms) ==
              Some(st.(admins := AdminsAfter(st.admins, denoms),
                       creators := st.creators + Creations(env, denoms),
                       metadata := MetadataAfter(st.metadata, denoms)))
    decreases |denoms|
  {
    if denoms == [] {
      assert st.creators + {} == st.creators;
    } else {
      var g, rest := denoms[0], denoms[1..];
      assert ValidEntry(env, g);
      ImportOne(env, st, g);
      ImportEffect(env, ImportDenom(env, st, g), rest);
      UnionAssociates(st.creators, {(CreatorOf(env, g.denom), g.denom)}, Creations(env, rest));
    }
  }

  /** The same next to an empty token factory. */
  lemma ImportBlank(env: Env, blank: State, gs: GenesisState)
    requires Blank(blank) && ValidEntries(env, gs.denoms)
    ensures Import(env, blank, gs) ==
              Some(blank.(params := gs.params,
                          admins := AdminsAfter(map[], gs.denoms),
                          creators := Creations(env, gs.denoms),
                          metadata := WithDefaults(blank.metadata, Names(gs.denoms))))
  {
    ImportEffect(env, blank.(params := gs.params), gs.denoms);
    MetadataAfterIsDefaulted(blank.metadata, gs.denoms);
    assert {} + Creations(env, gs.denoms) == Creations(env, gs.denoms);
  }

  lemma UnionAssociates(a: set<(string, string)>, b: set<(string, string)>, c: set<(string, string)>)
    ensures (a + b) + c == a + (b + c)
  {
  }

  lemma {:induction false} CreatedHas(env: Env, denoms: seq<GenesisDenom>, p: (string, string))
    requires ValidEntries(env, denoms)
    ensures p in Creations(env, denoms) <==>
              exists k :: 0 <= k < |denoms| && p.1 == denoms[k].denom && p.0 == CreatorOf(env, p.1)
    decreases |denoms|
  {
    if denoms != [] {
      CreatedHas(env, denoms[1..], p);
      if p in Creations(env, denoms[1..]) {
        var k :| 0 <= k < |denoms[1..]| && p.1 == denoms[1..][k].denom;
        assert denoms[k + 1] == denoms[1..][k];
      }
    }
  }

  lemma {:induction false} MetadataAfterIsDefaulted(metadata: map<string, Metadata>, denoms: seq<GenesisDenom>)
    ensures MetadataAfter(metadata, denoms) == WithDefaults(metadata, Names(denoms))
    decreases |denoms|
  {
    if denoms != [] {
      assert denoms == [denoms[0]] + denoms[1..];
      MetadataAfterIsDefaulted(Defaulted(metadata, denoms[0].denom), denoms[1..]);
      NamesMore(denoms[0], denoms[1..]);
    }
  }

  lemma {:induction false} AdminsAfterAdministers(admins: map<string, string>, denoms: seq<GenesisDenom>)
    requires Distinct(denoms)
    ensures Administers(AdminsAfter(admins, denoms), admins, denoms)
    decreases |denoms|
  {
    if denoms != [] {
      assert denoms == [denoms[0]] + denoms[1..];
      AdminsAfterAdministers(admins[denoms[0].denom := denoms[0].admin], denoms[1..]);
      AdministersMore(AdminsAfter(admins, denoms), admins, denoms[0], denoms[1..]);
    }
  }

  lemma NamesMore(g: GenesisDenom, rest: seq<GenesisDenom>)
    ensures Names([g] + rest) == {g.denom} + Names(rest)
  {
  }

  lemma AdministersMore(now: map<string, string>, was: map<string, string>, g: GenesisDenom, rest: seq<GenesisDenom>)
    requires Distinct([g] + rest)
    requires Administers(now, was[g.denom := g.admin], rest)
    ensures Administers(now, was, [g] + rest)
  {
    var denoms := [g] + rest;
    assert Names(denoms) == {g.denom} + Names(rest);
    assert g.denom !in Names(rest) by {
      forall k | 0 <= k < |rest| ensures rest[k].denom != g.denom {
        assert denoms[0] == g && denoms[k + 1] == rest[k];
      }
    }
    forall k | 0 <= k < |denoms| ensures now[denoms[k].denom] == denoms[k].admin {
      if k > 0 {
        assert denoms[k] == rest[k - 1];
      }
    }
  }

  // ---------------------------------------------------------------------------
  // Export
  // ---------------------------------------------------------------------------

  /** Each key once, in whatever order the store is walked. */
  ghost predicate Enumerates(keys: seq<(string, string)>, creators: set<(string, string)>) {
    && (forall p :: p in keys <==> p in creators)
    && (forall i, j :: 0 <= i < j < |keys| ==> keys[i] != keys[j])
  }

  predicate Exportable(admins: map<string, string>, keys: seq<(string, string)>) {
    forall k :: 0 <= k < |keys| ==> keys[k].1 in admins
  }

  function ExportedDenoms(admins: map<string, string>, keys: seq<(string, string)>): seq<GenesisDenom>
    requires Exportable(admins, keys)
  {
    seq(|keys|, k requires 0 <= k < |keys| => GenesisDenom(keys[k].1, admins[keys[k].1]))
  }

  function Exported(st: State, keys: seq<(string, string)>): GenesisState
    requires Exportable(st.admins, keys)
  {
    GenesisState(st.params, ExportedDenoms(st.admins, keys))
  }

  method ExportGenesis(k: Keepers) returns (gs: Option<GenesisState>, ghost keys: seq<(string, string)>)
    ensures gs.Some? ==> Enumerates(keys, k.creators) && Exportable(k.admins, keys)
    ensures gs.Some? ==> gs.value == Exported(k.Stores(), keys)
    ensures gs.None? ==> exists p :: p in k.creators && p.1 !in k.admins
  {
    var denoms: seq<GenesisDenom> := [];
    var left := k.creators;
    keys := [];
    while left != {}
      invariant left <= k.creators
      invariant Enumerates(keys, k.creators - left)
      invariant Exportable(k.admins, keys) && denoms == ExportedDenoms(k.admins, keys)
      decreases |left|
    {
      var key :| key in left;
      if key.1 !in k.admins {
        return None, keys;
      }
      denoms := denoms + [GenesisDenom(key.1, k.admins[key.1])];
      keys, left := keys + [key], left - {key};
    }
    assert k.creators - left == k.creators;
    return Some(GenesisState(k.params, denoms)), keys;
  }

  // ---------------------------------------------------------------------------
  // The round trip
  // ---------------------------------------------------------------------------

  /** The same index, with creators in canonical form. */
  ghost function Respelled(env: Env, creators: set<(string, string)>): set<(string, string)>
    requires AllAttributed(env, creators)
  {
    set p | p in creators :: (env.codec.Canonical(p.0), p.1)
  }

  ghost predicate AllCanonical(env: Env, creators: set<(string, string)>)
    requires AllAttributed(env, creators)
  {
    forall p :: p in creators ==> env.codec.Canonical(p.0) == p.0
  }

  lemma IndexedExportable(env: Env, st: State, keys: seq<(string, string)>)
    requires Indexed(env, st) && Enumerates(keys, st.creators)
    ensures Exportable(st.admins, keys)
  {
    forall k | 0 <= k < |keys| ensures keys[k].1 in st.admins {
      assert keys[k] in st.creators;
      assert keys[k].1 in Listed(st.creators);
    }
  }

  /** What is exported validates. */
  lemma ExportValidates(env: Env, st: State, keys: seq<(string, string)>)
    requires Indexed(env, st) && ValidCoins(st.params.fee) && Enumerates(keys, st.creators)
    ensures Exportable(st.admins, keys) && ValidGenesis(env, Exported(st, keys))
  {
    IndexedExportable(env, st, keys);
    var denoms := ExportedDenoms(st.admins, keys);
    forall k | 0 <= k < |denoms| ensures ValidEntry(env, denoms[k]) {
      assert keys[k] in st.creators;
      assert Attributed(env, keys[k].0, keys[k].1);
    }
    forall i, j | 0 <= i < j < |denoms| ensures denoms[i].denom != denoms[j].denom {
      assert keys[i] in st.creators && keys[j] in st.creators;
    }
  }

  lemma ExportedNames(admins: map<string, string>, creators: set<(string, string)>, keys: seq<(string, string)>)
    requires admins.Keys == Listed(creators) && Enumerates(keys, creators) && Exportable(admins, keys)
    ensures Names(ExportedDenoms(admins, keys)) == admins.Keys
  {
    var denoms := ExportedDenoms(admins, keys);
    forall d | d in admins ensures d in Names(denoms) {
      var p :| p in creators && p.1 == d;
      var k :| 0 <= k < |keys| && keys[k] == p;
      assert denoms[k].denom == d;
    }
    forall k | 0 <= k < |denoms| ensures denoms[k].denom in admins {
    }
  }

  lemma ExportedCreators(
      env: Env, creators: set<(string, string)>, admins: map<string, string>, keys: seq<(string, string)>)
    requires AllAttributed(env, creators) && Enumerates(keys, creators) && Exportable(admins, keys)
    requires ValidEntries(env, ExportedDenoms(admins, keys))
    ensures Creations(env, ExportedDenoms(admins, keys)) == Respelled(env, creators)
  {
    var denoms := ExportedDenoms(admins, keys);
    forall q ensures q in Creations(env, denoms) <==> q in Respelled(env, creators) {
      CreatedHas(env, denoms, q);
      if q in Respelled(env, creators) {
        RespelledIsExported(env, creators, keys, q);
        var k :| 0 <= k < |keys| && q.1 == keys[k].1;
        assert denoms[k].denom == q.1;
      }
      if k :| 0 <= k < |denoms| && q.1 == denoms[k].denom && q.0 == CreatorOf(env, q.1) {
        ExportedIsRespelled(env, creators, keys, q, k);
      }
    }
  }

  lemma RespelledIsExported(env: Env, creators: set<(string, string)>, keys: seq<(string, string)>, q: (string, string))
    requires AllAttributed(env, creators) && Enumerates(keys, creators) && q in Respelled(env, creators)
    ensures exists k :: 0 <= k < |keys| && q.1 == keys[k].1
    ensures IsFactoryDenom(env, q.1) && q.0 == CreatorOf(env, q.1)
  {
    var p :| p in creators && q == (env.codec.Canonical(p.0), p.1);
    assert Attributed(env, p.0, p.1);
    var k :| 0 <= k < |keys| && keys[k] == p;
  }

  lemma ExportedIsRespelled(
      env: Env, creators: set<(string, string)>, keys: seq<(string, string)>, q: (string, string), k: nat)
    requires AllAttributed(env, creators) && Enumerates(keys, creators)
    requires k < |keys| && q.1 == keys[k].1 && IsFactoryDenom(env, q.1) && q.0 == CreatorOf(env, q.1)
    ensures q in Respelled(env, creators)
  {
    var p := keys[k];
    assert p in creators;
    assert Attributed(env, p.0, p.1);
    assert q == (env.codec.Canonical(p.0), p.1);
  }

  /** Exporting a state and importing it next to any bank rebuilds the parameters
      and the admins, and the index up to the spelling of creators. Hooks are gone. */
  lemma RoundTrip(env: Env, st: State, keys: seq<(string, string)>, blank: State)
    requires Indexed(env, st) && ValidCoins(st.params.fee) && Enumerates(keys, st.creators)
    requires Blank(blank)
    ensures Exportable(st.admins, keys)
    ensures Import(env, blank, Exported(st, keys)) ==
              Some(blank.(params := st.params,
                          admins := st.admins,
                          creators := Respelled(env, st.creators),
                          metadata := WithDefaults(blank.metadata, st.admins.Keys)))
  {
    ExportValidates(env, st, keys);
    var denoms := ExportedDenoms(st.admins, keys);
    ImportBlank(env, blank, GenesisState(st.params, denoms));
    ExportedAdmins(env, st, keys);
    ExportedNames(st.admins, st.creators, keys);
    ExportedCreators(env, st.creators, st.admins, keys);
  }

  lemma ExportedAdmins(env: Env, st: State, keys: seq<(string, string)>)
    requires Indexed(env, st) && Enumerates(keys, st.creators) && Exportable(st.admins, keys)
    requires Distinct(ExportedDenoms(st.admins, keys))
    ensures AdminsAfter(map[], ExportedDenoms(st.admins, keys)) == st.admins
  {
    var denoms := ExportedDenoms(st.admins, keys);
    AdminsAfterAdministers(map[], denoms);
    ExportedNames(st.admins, st.creators, keys);
    var admins := AdminsAfter(map[], denoms);
    assert admins.Keys == st.admins.Keys;
    forall d | d in st.admins ensures admins[d] == st.admins[d] {
      assert d in Names(denoms);
      var k :| 0 <= k < |denoms| && denoms[k].denom == d;
    }
  }

  /** The index comes back as it was exactly if all creators were spelled
      canonically. */
  lemma IndexRebuiltIff(env: Env, st: State)
    requires Indexed(env, st)
    ensures Respelled(env, st.creators) == st.creators <==> AllCanonical(env, st.creators)
  {
    var respelled := Respelled(env, st.creators);
    if respelled == st.creators {
      forall p | p in st.creators ensures env.codec.Canonical(p.0) == p.0 {
        assert (env.codec.Canonical(p.0), p.1) in respelled;
      }
    }
    if AllCanonical(env, st.creators) {
      forall p | p in st.creators ensures p in respelled {
        assert p == (env.codec.Canonical(p.0), p.1);
      }
      assert respelled == st.creators;
    }
  }

  /** A codec with two spellings of each address, like the two cases of bech32. */
  function TwoSpellings(): Codec {
    Codec(s => if |s| >= 2 && s[|s| - 1] in {'x', 'y'} then Some(s[..|s| - 1]) else None, a => a + "x")
  }

  lemma TwoSpellingsExample(codec: Codec, d: string)
    requires codec == TwoSpellings() && d == FactoryDenom("ay", "gold")
    ensures codec.decode("ay") == Some("a") && codec.Canonical("ay") == "ax"
    ensures GetTokenDenom("ay", "gold") == Good(d)
    ensures DeconstructDenom(codec, d) == Good(("ax", "gold"))
  {
    FactoryDenomShape("ay", "gold");
    assert d == "factory/ay/gold";
    assert "ay"[..1] == "a";
    DeconstructExactly(codec, d, "ay", "gold");
  }

  /** Where creating denoms is free, it is just recorded. */
  lemma FreeCreation(env: Env, st: State, sender: string, subdenom: string, denom: string)
    requires !IsModule(env, sender) && NewDenom(env, st, sender, subdenom) == Some(denom)
    requires st.params == Params([], 0)
    ensures Execute(env, st, 0, [Tx(CreateDenom(sender, subdenom), 0)]).0 ==
              Noted(AddDenom(st, sender, denom), sender, |st.journal|, Ledger.Created(denom))
  {
    var w := World(st, Meter(0, 0), 0, 0, []);
    var payer := env.codec.decode(sender).value;
    assert SendCoins(env, w, payer, env.feeCollector, []) == Run(w, Succeeded);
    assert w.st.params.fee == [] && ChargeForDenom(env, w, payer) == Run(w, Succeeded);
    var r := HandleCreateDenom(env, w, sender, subdenom);
    assert Handle(env, w, CreateDenom(sender, subdenom)) == r && r.out.Succeeded?;
    var txs := [Tx(CreateDenom(sender, subdenom), 0)];
    assert txs[1..] == [];
    assert Execute(env, r.w.st, r.w.calls, []) == (r.w.st, r.w.calls);
    assert Transact(env, st, 0, txs[0]) == (r.w.st, r.w.calls);
  }

  const BLANK := State(map[], map[], map[], map[], {}, map[], Params([], 0), [])

  /** On a chain that has just started, a creator uses the other spelling. After
      export and import, they are listed under the first. */
  lemma SpellingExample(env: Env)
    requires env.Valid() && env.codec == TwoSpellings() && "a" !in env.modules
    ensures var st := Execute(env, BLANK, 0, [Tx(CreateDenom("ay", "gold"), 0)]).0;
            Indexed(env, st) && Respelled(env, st.creators) != st.creators
  {
    var d := FactoryDenom("ay", "gold");
    var txs := [Tx(CreateDenom("ay", "gold"), 0)];
    var st := Execute(env, BLANK, 0, txs).0;
    TwoSpellingsExample(env.codec, d);
    assert NewDenom(env, BLANK, "ay", "gold") == Some(d);
    FreeCreation(env, BLANK, "ay", "gold", d);
    assert Indexed(env, BLANK);
    RunsKeepIndex(env, BLANK, 0, txs);
    assert ("ay", d) in st.creators;
    IndexRebuiltIff(env, st);
  }

  // ---------------------------------------------------------------------------
  // Reachable states
  // ---------------------------------------------------------------------------

  /** A valid genesis makes a state in which index and admins agree. */
  lemma ImportIndexed(env: Env, blank: State, gs: GenesisState)
    requires env.Valid() && ValidGenesis(env, gs) && Blank(blank)
    ensures Import(env, blank, gs).Some?
    ensures Indexed(env, Import(env, blank, gs).value) && ValidHooks(env, BooksOf(Import(env, blank, gs).value))
    ensures Import(env, blank, gs).value.params == gs.params
  {
    ImportBlank(env, blank, gs);
    AdminsAfterAdministers(map[], gs.denoms);
    DefaultsCover(blank.metadata, Names(gs.denoms));
    IndexedWhen(env, Import(env, blank, gs).value, gs.denoms);
  }

  lemma IndexedWhen(env: Env, st: State, denoms: seq<GenesisDenom>)
    requires env.Valid() && ValidEntries(env, denoms)
    requires st.creators == Creations(env, denoms) && Administers(st.admins, map[], denoms)
    requires Names(denoms) <= st.metadata.Keys
    ensures Indexed(env, st)
  {
    CreatedAttributed(env, denoms);
    ImportedAdministered(env, st.admins, st.metadata, denoms);
  }

  lemma DefaultsCover(metadata: map<string, Metadata>, names: set<string>)
    ensures names <= WithDefaults(metadata, names).Keys
  {
  }

  lemma CreatedAttributed(env: Env, denoms: seq<GenesisDenom>)
    requires env.Valid() && ValidEntries(env, denoms)
    ensures Listed(Creations(env, denoms)) == Names(denoms)
    ensures OneCreator(Creations(env, denoms)) && AllAttributed(env, Creations(env, denoms))
  {
    var created := Creations(env, denoms);
    forall p: (string, string)
      ensures p in created <==> exists k :: 0 <= k < |denoms| && p.1 == denoms[k].denom && p.0 == CreatorOf(env, p.1)
    {
      CreatedHas(env, denoms, p);
    }
    forall p | p in created ensures Attributed(env, p.0, p.1) {
      CreatorIsCanonical(env, p.1);
    }
    forall k | 0 <= k < |denoms| ensures denoms[k].denom in Listed(created) {
      assert (CreatorOf(env, denoms[k].denom), denoms[k].denom) in created;
    }
  }

  lemma ImportedAdministered(
      env: Env, admins: map<string, string>, metadata: map<string, Metadata>, denoms: seq<GenesisDenom>)
    requires ValidEntries(env, denoms) && Administers(admins, map[], denoms)
    requires Names(denoms) <= metadata.Keys
    ensures AllAdministered(env, admins, metadata)
  {
    forall d | d in admins ensures d in metadata && ValidAdmin(env, admins[d]) {
      var k :| 0 <= k < |denoms| && denoms[k].denom == d;
      assert ValidEntry(env, denoms[k]);
    }
  }

  lemma CreatorIsCanonical(env: Env, denom: string)
    requires env.codec.Valid() && IsFactoryDenom(env, denom)
    ensures env.codec.decode(CreatorOf(env, denom)).Some?
    ensures env.codec.Canonical(CreatorOf(env, denom)) == CreatorOf(env, denom)
  {
    var creator, subdenom := DeconstructedIsBuilt(env.codec, denom);
    DeconstructExactly(env.codec, denom, creator, subdenom);
  }

  lemma {:induction false} RunsKeepParamsValid(env: Env, st: State, calls: nat, txs: seq<Tx>)
    requires env.Valid() && ValidCoins(st.params.fee)
    ensures ValidCoins(Execute(env, st, calls, txs).0.params.fee)
    decreases |txs|
  {
    if txs != [] {
      var (st', calls') := Transact(env, st, calls, txs[0]);
      if txs[0].Tx? {
        DeliverEvolves(env, World(st, Meter(txs[0].gasLimit, 0), calls, 0, []), txs[0].msg);
      }
      RunsKeepParamsValid(env, st', calls', txs[1..]);
    }
  }

  /** Whatever a chain does after a valid genesis, what it exports validates, and a
      chain started from it has the same parameters, admins and, up to spelling,
      creators. */
  lemma ReachableRoundTrip(
      env: Env, blank: State, gs: GenesisState, txs: seq<Tx>, keys: seq<(string, string)>, blank': State)
    requires env.Valid() && ValidGenesis(env, gs) && Blank(blank) && Blank(blank')
    requires Import(env, blank, gs).Some?
    requires Enumerates(keys, Execute(env, Import(env, blank, gs).value, 0, txs).0.creators)
    ensures var st := Execute(env, Import(env, blank, gs).value, 0, txs).0;
            && Exportable(st.admins, keys)
            && ValidGenesis(env, Exported(st, keys))
            && Import(env, blank', Exported(st, keys)).Some?
            && var st' := Import(env, blank', Exported(st, keys)).value;
            && st'.params == st.params
            && st'.admins == st.admins
            && AllAttributed(env, st.creators)
            && (st'.creators == st.creators <==> AllCanonical(env, st.creators))
            && st'.hooks == map[]
  {
    ImportIndexed(env, blank, gs);
    var start := Import(env, blank, gs).value;
    var st := Execute(env, start, 0, txs).0;
    RunsKeepIndex(env, start, 0, txs);
    RunsKeepParamsValid(env, start, 0, txs);
    ExportValidates(env, st, keys);
    RoundTrip(env, st, keys, blank');
    IndexRebuiltIff(env, st);
  }
}
