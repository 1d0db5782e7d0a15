// Sequential runs of the ID store: what every operation keeps, and what a run therefore has.
module StoreRuns {
  import opened Wrappers
  import opened Sequences
  import opened IdMap

  datatype Op =
    | OpGetOrCreate(originalID: string, serverID: int, itemType: string, d: Draw)
    | OpResolve(virtualID: string, ok: bool)
    | OpAddInstance(virtualID: string, inst: Instance, ok: bool)
    | OpGetInstances(virtualID: string, rowsOk: bool, resolveOk: bool)
    | OpCleanupServer(serverID: int, d: Draw)

  ghost function Step(s: State, op: Op): State
  {
    match op
    case OpGetOrCreate(o, srv, t, d) => GetOrCreate(s, o, srv, t, d).0
    case OpResolve(v, ok) => Resolve(s, v, ok).0
    case OpAddInstance(v, inst, ok) => AddInstance(s, v, inst, ok)
    case OpGetInstances(v, rowsOk, resolveOk) =>
      if CachedListing(s, v) || !rowsOk then s else Resolve(s, v, resolveOk).0
    case OpCleanupServer(srv, d) => CleanupServer(s, srv, d)
  }

  ghost function Run(s: State, ops: seq<Op>): State
    decreases |ops|
  {
    if ops == [] then s else Run(Step(s, ops[0]), ops[1..])
  }

  // The call reaches the INSERT and is told that it succeeded.
  predicate Inserts(s: State, op: Op)
  {
    op.OpGetOrCreate? && (op.originalID, op.serverID) !in s.rmap && op.d.first
  }

  ghost predicate FreshStep(s: State, op: Op)
  {
    Inserts(s, op) ==> op.d.id !in s.db.mapping
  }

  ghost predicate FreshRun(s: State, ops: seq<Op>)
    decreases |ops|
  {
    ops == [] || (FreshStep(s, ops[0]) && FreshRun(Step(s, ops[0]), ops[1..]))
  }

  lemma StepCoherentIff(s: State, op: Op)
    requires Coherent(s)
    ensures Coherent(Step(s, op)) <==> FreshStep(s, op)
  {
    match op
    case OpGetOrCreate(o, srv, t, d) => GetOrCreateCoherentIff(s, o, srv, t, d);
    case OpResolve(v, ok) => ResolveCoherent(s, v, ok);
    case OpAddInstance(v, inst, ok) => AddInstanceCoherent(s, v, inst, ok);
    case OpGetInstances(v, rowsOk, resolveOk) => ResolveCoherent(s, v, resolveOk);
    case OpCleanupServer(srv, d) => CleanupCoherent(s, srv, d);
  }

  // A run stays coherent at every point exactly when no INSERT that was reported as done met an ID
  // already in the table. Statement failures and cleanups change nothing in this.
  lemma {:induction false} RunCoherentIff(s: State, ops: seq<Op>)
    requires Coherent(s)
    ensures (forall k | 0 <= k <= |ops| :: Coherent(Run(s, ops[..k]))) <==> FreshRun(s, ops)
    decreases |ops|
  {
    if ops == [] {
      assert forall k | 0 <= k <= |ops| :: ops[..k] == [];
    } else {
      var t := Step(s, ops[0]);
      StepCoherentIff(s, ops[0]);
      forall k | 1 <= k <= |ops|
        ensures Run(s, ops[..k]) == Run(t, ops[1..][..k - 1])
      {
        assert ops[..k][1..] == ops[1..][..k - 1];
      }
      assert Run(s, ops[..1]) == Run(t, []) == t;
      if FreshStep(s, ops[0]) {
        RunCoherentIff(t, ops[1..]);
        if forall k | 0 <= k <= |ops| :: Coherent(Run(s, ops[..k])) {
          forall k | 0 <= k <= |ops[1..]|
            ensures Coherent(Run(t, ops[1..][..k]))
          {
            assert Coherent(Run(s, ops[..k + 1]));
          }
        }
        if FreshRun(t, ops[1..]) {
          forall k | 0 <= k <= |ops|
            ensures Coherent(Run(s, ops[..k]))
          {
            if k > 0 {
              assert Coherent(Run(t, ops[1..][..k - 1]));
            }
          }
        }
      }
    }
  }

  // From a complete start-up load on, whatever happens: the cache is the id_mapping table and the
  // reverse index is its exact inverse.
  lemma StartedRunCoherent(db: Tables, delivered: set<string>, s: State, ops: seq<Op>)
    requires UniquePairs(db) && Loaded(db, delivered, s) && db.mapping.Keys <= delivered
    requires FreshRun(s, ops)
    ensures Coherent(Run(s, ops))
  {
    LoadCoherentIff(db, delivered, s);
    RunCoherentIff(s, ops);
    assert ops[..|ops|] == ops;
  }

  // ---------- IDs are kept ----------

  predicate Cleans(ops: seq<Op>, serverID: int)
  {
    exists op | op in ops :: op.OpCleanupServer? && op.serverID == serverID
  }

  lemma StepKeeps(s: State, op: Op, v: string)
    requires Coherent(s) && FreshStep(s, op) && v in s.cache
    requires !(op.OpCleanupServer? && op.serverID == s.cache[v].serverID)
    ensures v in Step(s, op).cache && PairOf(Step(s, op).cache[v]) == PairOf(s.cache[v])
  {
    match op
    case OpGetOrCreate(o, srv, t, d) => GetOrCreateGrows(s, o, srv, t, d);
    case OpResolve(_, ok) => ResolveCoherent(s, op.virtualID, ok);
    case OpAddInstance(w, inst, ok) => AddInstanceCoherent(s, w, inst, ok);
    case OpGetInstances(w, rowsOk, resolveOk) => ResolveCoherent(s, w, resolveOk);
    case OpCleanupServer(srv, d) =>
  }

  // Once given out, an ID goes on naming its pair until its server is cleaned up: it resolves to the
  // pair, and asking for the pair again gives it again, whatever the random source and the database do.
  lemma {:induction false} IdsKept(s: State, ops: seq<Op>, v: string)
    requires Coherent(s) && FreshRun(s, ops) && v in s.cache && !Cleans(ops, s.cache[v].serverID)
    ensures var t := Run(s, ops);
            var (o, srv) := PairOf(s.cache[v]);
            && Coherent(t) && v in t.cache
            && (forall ok :: Resolve(t, v, ok).1 == Some((o, srv)))
            && (forall itemType, d :: GetOrCreate(t, o, srv, itemType, d) == (t, v))
    decreases |ops|
  {
    if ops != [] {
      StepCoherentIff(s, ops[0]);
      assert ops[0] in ops;
      StepKeeps(s, ops[0], v);
      assert forall op | op in ops[1..] :: op in ops;
      IdsKept(Step(s, ops[0]), ops[1..], v);
    }
  }

  // A cleanup whose two statements succeed leaves no ID of that server and keeps all others.
  lemma CleanupForgetsExactly(s: State, serverID: int, d: Draw, v: string, ok: bool)
    requires Coherent(s) && d.first && d.second
    ensures var t := CleanupServer(s, serverID, d);
            Resolve(t, v, ok).1 ==
            if v in s.cache && s.cache[v].serverID != serverID then Some(PairOf(s.cache[v])) else None
  {
    CleanupCoherent(s, serverID, d);
  }

  // ---------- instances ----------

  // Each cached instance is a row, one for a server.
  ghost predicate SubListing(db: Tables, v: string, rows: seq<Instance>)
  {
    && (forall i | 0 <= i < |rows| ::
          && (v, rows[i].serverID) in db.instances
          && db.instances[(v, rows[i].serverID)] == InstanceRow(rows[i].originalID, rows[i].bitrate))
    && (forall i, j | 0 <= i < j < |rows| :: rows[i].serverID != rows[j].serverID)
  }

  ghost predicate InstancesOk(s: State, made: set<string>)
  {
    && (forall v | v in made :: v in s.cache && IsRowListing(s.db, v, s.cache[v].instances))
    && (forall v | v in s.cache :: SubListing(s.db, v, s.cache[v].instances))
  }

  ghost function Made(s: State, op: Op): set<string>
  {
    if Inserts(s, op) then {op.d.id} else {}
  }

  ghost function MadeBy(s: State, ops: seq<Op>): set<string>
    decreases |ops|
  {
    if ops == [] then {} else Made(s, ops[0]) + MadeBy(Step(s, ops[0]), ops[1..])
  }

  ghost predicate NewIds(s: State, ops: seq<Op>)
    decreases |ops|
  {
    ops == [] ||
    ((Inserts(s, ops[0]) ==> NoRows(s.db, ops[0].d.id)) && NewIds(Step(s, ops[0]), ops[1..]))
  }

  lemma SetInstanceKeeps(db: Tables, v: string, list: seq<Instance>, inst: Instance)
    requires SubListing(db, v, list)
    ensures var db' := ReplaceInstance(db, v, inst.serverID, InstanceRow(inst.originalID, inst.bitrate));
            && SubListing(db', v, SetInstance(list, inst))
            && (IsRowListing(db, v, list) ==> IsRowListing(db', v, SetInstance(list, inst)))
  {
    var db' := ReplaceInstance(db, v, inst.serverID, InstanceRow(inst.originalID, inst.bitrate));
    var list', i := SetInstance(list, inst), FindServer(list, inst.serverID);
    assert list'[i] == inst;
    assert forall j | 0 <= j < |list'| && j != i :: list'[j] == list[j] && list'[j].serverID != inst.serverID;
    if IsRowListing(db, v, list) {
      forall server | (v, server) in db'.instances
        ensures exists j :: 0 <= j < |list'| && list'[j].serverID == server
      {
        if server != inst.serverID {
          assert (v, server) in db.instances;
          var j :| 0 <= j < |list| && list[j].serverID == server;
          assert list'[j].serverID == server;
        }
      }
    }
  }

  lemma OtherRowsKeep(db: Tables, v: string, inst: Instance, w: string, list: seq<Instance>)
    requires w != v && SubListing(db, w, list)
    ensures var db' := ReplaceInstance(db, v, inst.serverID, InstanceRow(inst.originalID, inst.bitrate));
            && SubListing(db', w, list)
            && (IsRowListing(db, w, list) ==> IsRowListing(db', w, list))
  {
  }

  lemma AddInstanceKeeps(s: State, made: set<string>, v: string, inst: Instance)
    requires Coherent(s) && InstancesOk(s, made)
    ensures InstancesOk(AddInstance(s, v, inst, true), made)
  {
    var t := AddInstance(s, v, inst, true);
    forall w | w in s.cache
      ensures SubListing(t.db, w, t.cache[w].instances)
      ensures w in made ==> IsRowListing(t.db, w, t.cache[w].instances)
    {
      if w == v {
        SetInstanceKeeps(s.db, v, s.cache[v].instances, inst);
      } else {
        OtherRowsKeep(s.db, v, inst, w, s.cache[w].instances);
      }
    }
  }

  lemma NewEntryInstances(s: State, t: State, made: set<string>, v: string, e: Entry)
    requires InstancesOk(s, made) && v !in s.cache && NoRows(s.db, v) && e.instances == []
    requires t.cache == s.cache[v := e] && t.db.instances == s.db.instances
    ensures InstancesOk(t, made + {v})
  {
    forall w | w in s.cache
      ensures SubListing(t.db, w, t.cache[w].instances)
      ensures w in made ==> IsRowListing(t.db, w, t.cache[w].instances)
    {
      assert SubListing(s.db, w, s.cache[w].instances);
    }
  }

  lemma StepInstances(s: State, op: Op, made: set<string>)
    requires Coherent(s) && FreshStep(s, op) && InstancesOk(s, made)
    requires Inserts(s, op) ==> NoRows(s.db, op.d.id)
    requires !op.OpCleanupServer?
    ensures InstancesOk(Step(s, op), made + Made(s, op))
  {
    var t := Step(s, op);
    match op
    case OpGetOrCreate(o, srv, ty, d) =>
      PairIsIndexed(s, o, srv);
      if Inserts(s, op) {
        NewEntryInstances(s, t, made, d.id, Entry(o, srv, ty, []));
      }
    case OpResolve(v, ok) => ResolveCoherent(s, v, ok);
    case OpAddInstance(v, inst, ok) =>
      if ok {
        AddInstanceKeeps(s, made, v, inst);
      }
    case OpGetInstances(v, rowsOk, resolveOk) => ResolveCoherent(s, v, resolveOk);
  }

  // Without cleanups, what is cached for an ID made since start is exactly its rows, one for each
  // server; for an ID found at start it is some of them.
  lemma {:induction false} RunInstances(s: State, ops: seq<Op>, made: set<string>)
    requires Coherent(s) && FreshRun(s, ops) && NewIds(s, ops) && InstancesOk(s, made)
    requires forall op | op in ops :: !op.OpCleanupServer?
    ensures InstancesOk(Run(s, ops), made + MadeBy(s, ops))
    decreases |ops|
  {
    if ops == [] {
      assert made + {} == made;
    } else {
      var op, t := ops[0], Step(s, ops[0]);
      StepCoherentIff(s, op);
      assert op in ops;
      StepInstances(s, op, made);
      assert forall op | op in ops[1..] :: op in ops;
      RunInstances(t, ops[1..], made + Made(s, op));
      assert made + Made(s, op) + MadeBy(t, ops[1..]) == made + MadeBy(s, ops);
    }
  }

  lemma StartedRunInstances(db: Tables, delivered: set<string>, s: State, ops: seq<Op>)
    requires UniquePairs(db) && Loaded(db, delivered, s) && db.mapping.Keys <= delivered
    requires FreshRun(s, ops) && NewIds(s, ops)
    requires forall op | op in ops :: !op.OpCleanupServer?
    ensures InstancesOk(Run(s, ops), MadeBy(s, ops))
  {
    LoadCoherentIff(db, delivered, s);
    RunInstances(s, ops, {});
    assert {} + MadeBy(s, ops) == MadeBy(s, ops);
  }

  // ---------- the two branches of GetInstances ----------

  lemma ListingsSameElements(db: Tables, v: string, a: seq<Instance>, b: seq<Instance>)
    requires IsRowListing(db, v, a) && IsRowListing(db, v, b)
    ensures forall x :: x in a <==> x in b
  {
    forall x | x in a
      ensures x in b
    {
      var j :| 0 <= j < |b| && b[j].serverID == x.serverID;
    }
    forall x | x in b
      ensures x in a
    {
      var j :| 0 <= j < |a| && a[j].serverID == x.serverID;
    }
  }

  // For an ID made since start, the list from the cache and any list the database branch could give
  // are the same instances.
  lemma BranchesAgree(s: State, made: set<string>, v: string, r: seq<Instance>, fromRows: seq<Instance>)
    requires Coherent(s) && InstancesOk(s, made) && v in made
    requires CachedListing(s, v) && ListsInstances(s, v, true, true, s, r)
    requires PrimaryInstance(Resolve(s, v, true).1) <= fromRows
    requires IsRowListing(s.db, v, fromRows[|PrimaryInstance(Resolve(s, v, true).1)|..])
    ensures multiset(r) == multiset(fromRows)
  {
    var e := s.cache[v];
    var rows := fromRows[1..];
    ListingsSameElements(s.db, v, e.instances, rows);
    SameElements(e.instances, rows);
    assert r == [Instance(e.originalID, e.serverID, 0)] + e.instances;
    assert fromRows == [Instance(e.originalID, e.serverID, 0)] + rows;
  }

  // What the id_instances table itself would answer.
  function RowsAnswer(s: State, v: string, upstreamID: int): Option<string>
    requires v in s.cache
  {
    if s.cache[v].serverID == upstreamID then Some(s.cache[v].originalID)
    else if (v, upstreamID) in s.db.instances then Some(s.db.instances[(v, upstreamID)].originalID)
    else None
  }

  // The lookups of all upstreams for an ID come out as the table has them.
  ghost predicate LookupsRight(s: State, v: string)
    requires v in s.cache
  {
    forall up :: OriginalForUpstream(s, v, up, true, true) == RowsAnswer(s, v, up)
  }

  // A list and the rows of an ID say the same of a server.
  predicate SameOn(s: State, v: string, list: seq<Instance>, server: int)
  {
    if HasServer(list, server) then
      (v, server) in s.db.instances &&
        s.db.instances[(v, server)].originalID == list[FindServer(list, server)].originalID
    else (v, server) !in s.db.instances
  }

  // A non-empty cached list hides the table: the lookups are right exactly when it says the same as the
  // rows of all servers but the primary's. For a list made of rows that means: when it covers them.
  lemma CachedAnswersIff(s: State, v: string)
    requires CachedListing(s, v)
    ensures LookupsRight(s, v) <==> forall up | up != s.cache[v].serverID :: SameOn(s, v, s.cache[v].instances, up)
    ensures SubListing(s.db, v, s.cache[v].instances) ==>
              (LookupsRight(s, v) <==>
               forall up | (v, up) in s.db.instances && up != s.cache[v].serverID ::
                 HasServer(s.cache[v].instances, up))
  {
    var list, own := s.cache[v].instances, s.cache[v].serverID;
    forall up | up != own
      ensures OriginalForUpstream(s, v, up, true, true) == RowsAnswer(s, v, up) <==> SameOn(s, v, list, up)
    {}
    if SubListing(s.db, v, list) {
      forall up | up != own
        ensures SameOn(s, v, list, up) <==> ((v, up) in s.db.instances ==> HasServer(list, up))
      {
        if HasServer(list, up) {
          assert list[FindServer(list, up)].serverID == up;
        }
      }
    }
  }

  // The servers that instances of an ID were added for.
  ghost function AddedOn(ops: seq<Op>, v: string): set<int>
  {
    set op | op in ops && op.OpAddInstance? && op.virtualID == v && op.ok :: op.inst.serverID
  }

  predicate HasServer(list: seq<Instance>, server: int)
  {
    FindServer(list, server) < |list|
  }

  lemma SetInstanceServers(list: seq<Instance>, inst: Instance, server: int)
    ensures HasServer(SetInstance(list, inst), server) <==> HasServer(list, server) || server == inst.serverID
  {
    var list', i := SetInstance(list, inst), FindServer(list, inst.serverID);
    assert list'[i] == inst;
    assert forall j | 0 <= j < |list'| && j != i :: list'[j] == list[j];
    if HasServer(list, server) && server != inst.serverID {
      assert list'[FindServer(list, server)].serverID == server;
    }
    if HasServer(list', server) && server != inst.serverID {
      assert list[FindServer(list', server)].serverID == server;
    }
  }

  // What a run without cleanups does to the instances of an ID: cached and stored servers grow by the
  // ones added, and nothing else.
  ghost predicate ServersGrow(s: State, t: State, v: string, added: set<int>)
    requires v in s.cache
  {
    && v in t.cache && PairOf(t.cache[v]) == PairOf(s.cache[v])
    && (forall up :: HasServer(t.cache[v].instances, up) <==> HasServer(s.cache[v].instances, up) || up in added)
    && (forall up :: (v, up) in t.db.instances <==> (v, up) in s.db.instances || up in added)
  }

  lemma AddServers(s: State, w: string, inst: Instance, v: string)
    requires v in s.cache
    ensures ServersGrow(s, AddInstance(s, w, inst, true), v, if w == v then {inst.serverID} else {})
  {
    if w == v {
      forall up
        ensures HasServer(SetInstance(s.cache[v].instances, inst), up)
           <==> HasServer(s.cache[v].instances, up) || up == inst.serverID
      {
        SetInstanceServers(s.cache[v].instances, inst, up);
      }
    }
  }

  lemma StepServers(s: State, op: Op, v: string)
    requires Coherent(s) && FreshStep(s, op) && v in s.cache && !op.OpCleanupServer?
    ensures ServersGrow(s, Step(s, op), v, AddedOn([op], v))
  {
    match op
    case OpGetOrCreate(o, srv, ty, d) =>
      GetOrCreateGrows(s, o, srv, ty, d);
      GetOrCreateTables(s, o, srv, ty, d);
    case OpResolve(_, ok) => ResolveCoherent(s, op.virtualID, ok);
    case OpAddInstance(w, inst, ok) =>
      if ok {
        AddServers(s, w, inst, v);
        assert AddedOn([op], v) == if w == v then {inst.serverID} else {} by {
          assert op in [op];
        }
      }
    case OpGetInstances(_, rowsOk, resolveOk) => ResolveCoherent(s, op.virtualID, resolveOk);
  }

  lemma AddedOnFirst(ops: seq<Op>, v: string)
    requires ops != []
    ensures AddedOn(ops, v) == AddedOn([ops[0]], v) + AddedOn(ops[1..], v)
  {
    assert ops == [ops[0]] + ops[1..];
    assert forall op :: op in ops <==> op in [ops[0]] || op in ops[1..];
  }

  lemma {:induction false} RunServers(s: State, ops: seq<Op>, v: string)
    requires Coherent(s) && FreshRun(s, ops) && v in s.cache
    requires forall op | op in ops :: !op.OpCleanupServer?
    ensures ServersGrow(s, Run(s, ops), v, AddedOn(ops, v))
    decreases |ops|
  {
    if ops != [] {
      assert ops[0] in ops && forall op | op in ops[1..] :: op in ops;
      StepCoherentIff(s, ops[0]);
      StepServers(s, ops[0], v);
      RunServers(Step(s, ops[0]), ops[1..], v);
      AddedOnFirst(ops, v);
    }
  }

  // For an ID found at start, over all runs without cleanups: the lookups of all upstreams come out as the
  // table has them if and only if no instance was added since, or all that were stored have been again.
  lemma FoundIDLookupsIff(db: Tables, delivered: set<string>, s: State, ops: seq<Op>, v: string)
    requires UniquePairs(db) && Loaded(db, delivered, s) && db.mapping.Keys <= delivered
    requires FreshRun(s, ops) && NewIds(s, ops) && v in db.mapping
    requires forall op | op in ops :: !op.OpCleanupServer?
    ensures v in Run(s, ops).cache
    ensures LookupsRight(Run(s, ops), v) <==>
            || AddedOn(ops, v) == {}
            || forall up | (v, up) in db.instances && up != db.mapping[v].serverID :: up in AddedOn(ops, v)
  {
    LoadCoherentIff(db, delivered, s);
    StartedRunInstances(db, delivered, s, ops);
    RunServers(s, ops, v);
    var t, added := Run(s, ops), AddedOn(ops, v);
    assert s.cache[v].instances == [] && forall up :: !HasServer([], up);
    var list := t.cache[v].instances;
    if list != [] {
      assert HasServer(list, list[0].serverID) && list[0].serverID in added;
      CachedAnswersIff(t, v);
      assert forall up :: HasServer(list, up) <==> up in added;
    } else {
      NoServersNoneAdded(added);
    }
  }

  lemma NoServersNoneAdded(added: set<int>)
    requires forall up :: HasServer([], up) <==> up in added
    ensures added == {}
  {
    assert forall up :: up in added <==> up in {};
  }

  // It happens: after a restart, the first instance added to a mapping hides the ones stored before.
  const RESTARTED := State(map["v" := Entry("a", 1, "", [])], map[("a", 1) := "v"],
                           Tables(map["v" := Row("a", 1, "")], map[("v", 2) := InstanceRow("b", 0)]))

  lemma RestartHidesInstances()
    ensures Loaded(RESTARTED.db, {"v"}, RESTARTED) && Coherent(RESTARTED)
    ensures OriginalForUpstream(RESTARTED, "v", 2, true, true) == Some("b")
    ensures var t := AddInstance(RESTARTED, "v", Instance("c", 3, 0), true);
            ("v", 2) in t.db.instances && OriginalForUpstream(t, "v", 2, true, true) == None
  {
    assert "v" in RESTARTED.cache;
    HiddenAfterwards();
  }

  lemma HiddenAfterwards()
    ensures var t := AddInstance(RESTARTED, "v", Instance("c", 3, 0), true);
            ("v", 2) in t.db.instances && OriginalForUpstream(t, "v", 2, true, true) == None
  {
    var t := AddInstance(RESTARTED, "v", Instance("c", 3, 0), true);
    assert "v" in RESTARTED.cache;
    assert t.cache["v"].instances == [Instance("c", 3, 0)];
  }

  // A cleanup does not touch the cached instances of the mappings it keeps, whether or not its second
  // statement succeeds: their lists stay right exactly where no instance is on the cleaned server.
  lemma CleanupKeepsListingIff(s: State, serverID: int, d: Draw, v: string)
    requires d.first && v in CleanupServer(s, serverID, d).cache
    requires IsRowListing(s.db, v, s.cache[v].instances)
    ensures var t := CleanupServer(s, serverID, d);
            IsRowListing(t.db, v, t.cache[v].instances) <==> (v, serverID) !in s.db.instances
  {
    var t := CleanupServer(s, serverID, d);
    var list := s.cache[v].instances;
    assert t.cache[v].instances == list;
    if (v, serverID) in s.db.instances {
      var i :| 0 <= i < |list| && list[i].serverID == serverID;
      assert (v, list[i].serverID) !in t.db.instances;
    } else {
      assert forall i | 0 <= i < |list| :: (v, list[i].serverID) in s.db.instances;
    }
  }

  // And their lookups, right before, stay right exactly where the cached list has no instance on the
  // cleaned server, or that server is the ID's own.
  lemma CleanupKeepsLookupsIff(s: State, serverID: int, d: Draw, v: string)
    requires d.first && v in CleanupServer(s, serverID, d).cache && LookupsRight(s, v)
    ensures LookupsRight(CleanupServer(s, serverID, d), v) <==>
            serverID == s.cache[v].serverID || !HasServer(s.cache[v].instances, serverID)
  {
    var t, list := CleanupServer(s, serverID, d), s.cache[v].instances;
    assert t.cache[v] == s.cache[v];
    assert forall up :: (v, up) in t.db.instances <==> (v, up) in s.db.instances && up != serverID;
    if CachedListing(s, v) {
      CachedAnswersIff(s, v);
      CachedAnswersIff(t, v);
      SameAfterCleanup(s, serverID, d, v);
    } else {
      assert !HasServer(list, serverID);
    }
  }

  lemma SameAfterCleanup(s: State, serverID: int, d: Draw, v: string)
    requires d.first && v in CleanupServer(s, serverID, d).cache
    requires forall up | up != s.cache[v].serverID :: SameOn(s, v, s.cache[v].instances, up)
    ensures (forall up | up != s.cache[v].serverID ::
            SameOn(CleanupServer(s, serverID, d), v, s.cache[v].instances, up)) <==>
            serverID == s.cache[v].serverID || !HasServer(s.cache[v].instances, serverID)
  {
    var t, list := CleanupServer(s, serverID, d), s.cache[v].instances;
    forall up | up != s.cache[v].serverID
      ensures SameOn(t, v, list, up) <==> up != serverID || !HasServer(list, up)
    {
      assert SameOn(s, v, list, up);
    }
  }

  // It happens: an instance is added and its server cleaned up, and the lookup still finds it.
  const SHARED := State(map["v" := Entry("a", 1, "", [Instance("b", 2, 0)])], map[("a", 1) := "v"],
                        Tables(map["v" := Row("a", 1, "")], map[("v", 2) := InstanceRow("b", 0)]))

  lemma CleanupLeavesInstance(d: Draw)
    requires d.first
    ensures var t := CleanupServer(SHARED, 2, d);
            && Coherent(SHARED) && Coherent(t) && t.db.instances == map[]
            && "v" in t.cache && OriginalForUpstream(t, "v", 2, true, true) == Some("b")
  {
    SharedCoherent();
    CleanupCoherent(SHARED, 2, d);
    StillFound(d);
  }

  lemma SharedCoherent()
    ensures Coherent(SHARED)
  {
    assert "v" in SHARED.cache && "v" in SHARED.db.mapping;
  }

  lemma StillFound(d: Draw)
    requires d.first
    ensures var t := CleanupServer(SHARED, 2, d);
            t.db.instances == map[] && "v" in t.cache && OriginalForUpstream(t, "v", 2, true, true) == Some("b")
  {
    var t := CleanupServer(SHARED, 2, d);
    assert "v" in SHARED.cache && t.cache["v"].instances == [Instance("b", 2, 0)];
  }
}
