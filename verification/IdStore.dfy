// The store object of internal/idmap: two indexes in memory over two SQL tables, changed in place.
module IdStore {
  import opened Wrappers
  import opened IdMap

  class Mapping {
    const virtualID: string
    const originalID: string
    const serverID: int
    const itemType: string
    var instances: seq<Instance>

    constructor (virtualID: string, originalID: string, serverID: int, itemType: string)
      ensures this.virtualID == virtualID && this.originalID == originalID
      ensures this.serverID == serverID && this.itemType == itemType
      ensures instances == []
    {
      this.virtualID, this.originalID, this.serverID, this.itemType := virtualID, originalID, serverID, itemType;
      instances := [];
    }

    function Entry(): IdMap.Entry
      reads this
    {
      IdMap.Entry(originalID, serverID, itemType, instances)
    }

    // An entry for the server is overwritten, else one is appended.
    method SetInstance(originalID: string, serverID: int, bitrate: int)
      modifies this
      ensures instances == IdMap.SetInstance(old(instances), Instance(originalID, serverID, bitrate))
    {
      for i := 0 to |instances|
        invariant instances == old(instances)
        invariant forall j | 0 <= j < i :: instances[j].serverID != serverID
      {
        if instances[i].serverID == serverID {
          assert i == FindServer(instances, serverID);
          instances := instances[i := instances[i].(originalID := originalID, bitrate := bitrate)];
          return;
        }
      }
      instances := instances + [Instance(originalID, serverID, bitrate)];
    }
  }

  // The text-keyed index files exactly the given pairs.
  ghost predicate Indexed(rmap: map<string, string>, pairs: map<Pair, string>)
  {
    && (forall p {:trigger Files(rmap, p, pairs[p])} | p in pairs :: Files(rmap, p, pairs[p]))
    && (forall k {:trigger HasOwner(pairs, k)} | k in rmap :: HasOwner(pairs, k))
  }

  ghost predicate Files(rmap: map<string, string>, p: Pair, v: string)
  {
    Key(p.0, p.1) in rmap && rmap[Key(p.0, p.1)] == v
  }

  ghost predicate HasOwner(pairs: map<Pair, string>, k: string)
  {
    exists p :: p in pairs && k == Key(p.0, p.1)
  }

  // Text keys and pairs can be used for each other because the text names the pair.
  lemma IndexedAt(rmap: map<string, string>, pairs: map<Pair, string>, originalID: string, serverID: int)
    requires Indexed(rmap, pairs)
    ensures Key(originalID, serverID) in rmap <==> (originalID, serverID) in pairs
    ensures Key(originalID, serverID) in rmap ==> rmap[Key(originalID, serverID)] == pairs[(originalID, serverID)]
  {
    var key, p := Key(originalID, serverID), (originalID, serverID);
    if p in pairs {
      assert Files(rmap, p, pairs[p]);
    } else if key in rmap {
      assert HasOwner(pairs, key);
      var q :| q in pairs && key == Key(q.0, q.1);
      KeyInjective(originalID, serverID, q.0, q.1);
      assert false;
    }
  }

  lemma KeysDiffer(p: Pair, q: Pair)
    requires p != q
    ensures Key(p.0, p.1) != Key(q.0, q.1)
  {
    if Key(p.0, p.1) == Key(q.0, q.1) {
      KeyInjective(p.0, p.1, q.0, q.1);
    }
  }

  lemma IndexedInsert(rmap: map<string, string>, pairs: map<Pair, string>, p: Pair, v: string)
    requires Indexed(rmap, pairs)
    ensures Indexed(rmap[Key(p.0, p.1) := v], pairs[p := v])
  {
    var rmap', pairs' := rmap[Key(p.0, p.1) := v], pairs[p := v];
    forall q | q in pairs'
      ensures Files(rmap', q, pairs'[q])
    {
      if q != p {
        KeysDiffer(p, q);
        assert Files(rmap, q, pairs[q]);
      }
    }
    forall k | k in rmap'
      ensures HasOwner(pairs', k)
    {
      if k == Key(p.0, p.1) {
        assert p in pairs';
      } else {
        assert HasOwner(pairs, k);
        var q :| q in pairs && k == Key(q.0, q.1);
        assert q in pairs';
      }
    }
  }

  lemma IndexedRemove(rmap: map<string, string>, pairs: map<Pair, string>, p: Pair)
    requires Indexed(rmap, pairs)
    ensures Indexed(rmap - {Key(p.0, p.1)}, pairs - {p})
  {
    var rmap', pairs' := rmap - {Key(p.0, p.1)}, pairs - {p};
    forall q | q in pairs'
      ensures Files(rmap', q, pairs'[q])
    {
      KeysDiffer(p, q);
      assert Files(rmap, q, pairs[q]);
    }
    forall k | k in rmap'
      ensures HasOwner(pairs', k)
    {
      assert HasOwner(pairs, k);
      var q :| q in pairs && k == Key(q.0, q.1);
      assert q in pairs';
    }
  }

  // What the database does for one call: whether its first and its second statement succeed.
  datatype Outcome = Outcome(first: bool, second: bool)

  class Store {
    // The IDs the random source gives, and an outcome for every call that reaches the database.
    const random: nat -> string
    const outcomes: nat -> Outcome
    var drawn: nat
    var clock: nat
    var db: Tables
    var cache: map<string, Mapping>
    var rmap: map<string, string>
    // The IDs in use when the store was made, and whether the start-up query delivered all of them.
    ghost const found: set<string>
    ghost const complete: bool
    ghost var entries: map<string, IdMap.Entry>
    ghost var pairs: map<Pair, string>
    ghost var Repr: set<object>

    // The two indexes are what entries and pairs say.
    ghost predicate Wired()
      reads this, Repr
    {
      && this in Repr
      && entries.Keys == cache.Keys
      && (forall v | v in cache :: cache[v] in Repr && cache[v].virtualID == v && cache[v].Entry() == entries[v])
      && Indexed(rmap, pairs)
      && UniquePairs(db)
    }

    ghost predicate Given(v: string)
      reads this
    {
      exists i: nat :: i < drawn && random(i) == v
    }

    // So far: the load was complete, and of the IDs drawn none was in use then or came twice.
    ghost predicate Reliable()
      reads this
    {
      && complete
      && (forall i: nat | i < drawn :: random(i) !in found)
      && (forall i: nat, j: nat | i < j < drawn :: random(i) != random(j))
    }

    // What holds of every store from its construction on.
    ghost predicate Valid()
      reads this, Repr
    {
      && Wired()
      && (forall v | v in db.mapping :: v in found || Given(v))
      && (Reliable() ==> Coherent(Model()))
    }

    // Since then no call's first statement has failed.
    ghost predicate Worked(since: nat)
      reads this
    {
      forall i: nat | since <= i < clock :: outcomes(i).first
    }

    ghost function Model(): State
      requires Wired()
      reads this, Repr
    {
      State(entries, pairs, db)
    }

    // What the next call has at its disposal.
    ghost function Next(): Draw
      reads this
    {
      Draw(random(drawn), outcomes(clock).first, outcomes(clock).second)
    }

    constructor (db: Tables, delivered: set<string>, entropy: nat -> Entropy, outcomes: nat -> Outcome)
      requires UniquePairs(db)
      ensures Valid() && fresh(Repr)
      ensures Loaded(db, delivered, Model())
      ensures clock == 0 && drawn == 0
      ensures found == db.mapping.Keys && complete == (db.mapping.Keys <= delivered)
      ensures this.outcomes == outcomes && forall i: nat :: random(i) == GenerateVirtualID(entropy(i))
    {
      this.random, this.outcomes := (i: nat) => GenerateVirtualID(entropy(i)), outcomes;
      this.drawn, this.clock, this.db := 0, 0, db;
      cache, rmap := map[], map[];
      found, complete := db.mapping.Keys, db.mapping.Keys <= delivered;
      entries, pairs := map[], map[];
      Repr := {this};
      new;
      LoadCache(delivered);
      LoadCoherentIff(db, delivered, Model());
    }

    // The rows of the start-up query arrive in any order, and only the delivered ones arrive.
    method LoadCache(delivered: set<string>)
      requires Wired() && entries == map[] && pairs == map[]
      modifies this
      ensures Wired() && fresh(Repr - old(Repr))
      ensures Loaded(db, delivered, Model())
      ensures db == old(db) && clock == old(clock) && drawn == old(drawn)
    {
      var pending := set v | v in db.mapping && v in delivered;
      ghost var all := pending;
      while pending != {}
        invariant pending <= all
        invariant Wired() && fresh(Repr - old(Repr))
        invariant db == old(db) && clock == old(clock) && drawn == old(drawn)
        invariant Loaded(db, all - pending, Model())
        decreases pending
      {
        var v :| v in pending;
        LoadedStep(db, all, pending, Model(), v);
        pending := pending - {v};
        Remember(v, db.mapping[v]);
      }
    }

    // Enters a row in both indexes, under a new mapping object.
    method Remember(virtualID: string, row: Row)
      requires Wired()
      modifies this
      ensures Wired() && Repr >= old(Repr) && fresh(Repr - old(Repr))
      ensures Model() == Publish(old(Model()), virtualID, row)
      ensures clock == old(clock) && drawn == old(drawn)
    {
      var m := new Mapping(virtualID, row.originalID, row.serverID, row.itemType);
      cache, entries := cache[virtualID := m], entries[virtualID := m.Entry()];
      IndexedInsert(rmap, pairs, (row.originalID, row.serverID), virtualID);
      rmap := rmap[Key(row.originalID, row.serverID) := virtualID];
      pairs := pairs[(row.originalID, row.serverID) := virtualID];
      Repr := Repr + {m};
    }

    method GetOrCreate(originalID: string, serverID: int, itemType: string) returns (virtualID: string)
      requires Valid()
      modifies this
      ensures Valid() && Repr >= old(Repr) && fresh(Repr - old(Repr))
      ensures (Model(), virtualID) == IdMap.GetOrCreate(old(Model()), originalID, serverID, itemType, old(Next()))
      ensures var known := (originalID, serverID) in old(Model()).rmap;
              clock == old(clock) + (if known then 0 else 1) && drawn == old(drawn) + (if known then 0 else 1)
      ensures Reliable() ==> old(Coherent(Model()))
      ensures Reliable() && (originalID, serverID) !in old(Model()).rmap ==> old(Next()).id !in old(db).mapping
    {
      var key := Key(originalID, serverID);
      IndexedAt(rmap, pairs, originalID, serverID);
      if key in rmap {
        return rmap[key];
      }
      // The source looks again once it holds the lock for writing. Nothing comes between the two
      // looks here; StoreInterleaving has both.
      ghost var s, d := Model(), Next();
      virtualID := Create(originalID, serverID, itemType);
      if Reliable() {
        assert d.id !in s.db.mapping;
        GetOrCreateCoherentIff(s, originalID, serverID, itemType, d);
      }
      assert forall v | v in db.mapping :: v in s.db.mapping || v == random(old(drawn));
    }

    // The pair has no ID yet.
    method Create(originalID: string, serverID: int, itemType: string) returns (virtualID: string)
      requires Wired() && (originalID, serverID) !in Model().rmap
      modifies this
      ensures Wired() && Repr >= old(Repr) && fresh(Repr - old(Repr))
      ensures (Model(), virtualID) == IdMap.GetOrCreate(old(Model()), originalID, serverID, itemType, old(Next()))
      ensures clock == old(clock) + 1 && drawn == old(drawn) + 1
    {
      var ok := outcomes(clock);
      virtualID := random(drawn);
      clock, drawn := clock + 1, drawn + 1;
      if !ok.first {
        virtualID := Existing(originalID, serverID, ok.second);
        return;
      }
      var row := Row(originalID, serverID, itemType);
      db := InsertOrIgnore(db, virtualID, row);
      Remember(virtualID, row);
    }

    // After a failed INSERT: the ID another writer may have stored, else the original.
    method Existing(originalID: string, serverID: int, selectOk: bool) returns (virtualID: string)
      requires Wired()
      modifies this`rmap, this`pairs
      ensures Wired()
      ensures var row := SelectVirtual(db, originalID, serverID);
              if selectOk && row.Some? && row.value != "" then
                virtualID == row.value && pairs == old(pairs)[(originalID, serverID) := virtualID]
              else virtualID == originalID && pairs == old(pairs)
    {
      var existing := SelectVirtualID(originalID, serverID);
      if selectOk && existing.Some? && existing.value != "" {
        IndexedInsert(rmap, pairs, (originalID, serverID), existing.value);
        rmap := rmap[Key(originalID, serverID) := existing.value];
        pairs := pairs[(originalID, serverID) := existing.value];
        return existing.value;
      }
      return originalID;
    }

    method Resolve(virtualID: string) returns (found: Option<(string, int)>)
      requires Valid()
      modifies this
      ensures Valid() && Repr >= old(Repr) && fresh(Repr - old(Repr))
      ensures (Model(), found) == IdMap.Resolve(old(Model()), virtualID, old(Next()).first)
      ensures clock == old(clock) + (if virtualID in old(cache) then 0 else 1) && drawn == old(drawn)
    {
      if virtualID in cache {
        return Some((cache[virtualID].originalID, cache[virtualID].serverID));
      }
      ghost var s := Model();
      var ok := outcomes(clock).first;
      clock := clock + 1;
      if !ok || virtualID !in db.mapping {
        return None;
      }
      var row := db.mapping[virtualID];
      Remember(virtualID, row.(itemType := ""));
      if Coherent(s) {
        ResolveCoherent(s, virtualID, ok);
      }
      return Some((row.originalID, row.serverID));
    }

    method AddInstance(virtualID: string, originalID: string, serverID: int, bitrate: int) returns (ok: bool)
      requires Valid()
      modifies Repr
      ensures Valid() && Repr == old(Repr)
      ensures ok == old(Next()).first && clock == old(clock) + 1 && drawn == old(drawn)
      ensures Model() == IdMap.AddInstance(old(Model()), virtualID, Instance(originalID, serverID, bitrate), ok)
    {
      ghost var s, inst := Model(), Instance(originalID, serverID, bitrate);
      ok := outcomes(clock).first;
      clock := clock + 1;
      if !ok {
        return;
      }
      Record(virtualID, originalID, serverID, bitrate);
      KeepsValidity(s, virtualID, inst);
    }

    lemma KeepsValidity(s: State, virtualID: string, inst: Instance)
      requires Wired() && Model() == IdMap.AddInstance(s, virtualID, inst, true)
      requires (forall v | v in s.db.mapping :: v in found || Given(v)) && (Reliable() ==> Coherent(s))
      ensures Valid()
    {
      AddInstanceSameMappings(s, virtualID, inst, true);
      if Coherent(s) {
        AddInstanceCoherent(s, virtualID, inst, true);
      }
    }

    // The row, and the cached list if there is one.
    method Record(virtualID: string, originalID: string, serverID: int, bitrate: int)
      requires Wired()
      modifies Repr
      ensures Wired() && Repr == old(Repr) && clock == old(clock) && drawn == old(drawn)
      ensures Model() == IdMap.AddInstance(old(Model()), virtualID, Instance(originalID, serverID, bitrate), true)
    {
      if virtualID in cache {
        SetCached(virtualID, originalID, serverID, bitrate);
      }
      db := ReplaceInstance(db, virtualID, serverID, InstanceRow(originalID, bitrate));
    }

    method SetCached(virtualID: string, originalID: string, serverID: int, bitrate: int)
      requires Wired() && virtualID in cache
      modifies this`entries, cache[virtualID]
      ensures Wired()
      ensures var e := old(entries)[virtualID];
              var list := IdMap.SetInstance(e.instances, Instance(originalID, serverID, bitrate));
              entries == old(entries)[virtualID := e.(instances := list)]
    {
      var m := cache[virtualID];
      assert m.Entry() == entries[virtualID];
      assert forall v | v in cache && v != virtualID :: cache[v] != m;
      m.SetInstance(originalID, serverID, bitrate);
      entries := entries[virtualID := m.Entry()];
    }

    method GetInstances(virtualID: string) returns (instances: seq<Instance>)
      requires Valid()
      modifies this
      ensures Valid() && Repr >= old(Repr) && fresh(Repr - old(Repr))
      ensures ListsInstances(old(Model()), virtualID, outcomes(old(clock)).first, outcomes(old(clock) + 1).first,
              Model(), instances)
      ensures drawn == old(drawn)
      ensures if CachedListing(old(Model()), virtualID) then clock == old(clock) else clock > old(clock)
    {
      if virtualID in cache && cache[virtualID].instances != [] {
        var m := cache[virtualID];
        assert Model().cache[virtualID] == m.Entry();
        return [Instance(m.originalID, m.serverID, 0)] + m.instances;
      }
      assert !CachedListing(Model(), virtualID);
      instances := LoadInstances(virtualID);
    }

    // The database branch of GetInstances: the rows, after the primary instance.
    method LoadInstances(virtualID: string) returns (instances: seq<Instance>)
      requires Valid() && !CachedListing(Model(), virtualID)
      modifies this
      ensures Valid() && Repr >= old(Repr) && fresh(Repr - old(Repr))
      ensures ListsInstances(old(Model()), virtualID, outcomes(old(clock)).first, outcomes(old(clock) + 1).first,
              Model(), instances)
      ensures clock > old(clock) && drawn == old(drawn)
    {
      var rowsOk := outcomes(clock).first;
      clock := clock + 1;
      if !rowsOk {
        return [];
      }
      var found := Resolve(virtualID);
      var rows := QueryInstances(virtualID);
      instances := PrimaryInstance(found) + rows;
      assert instances[|PrimaryInstance(found)|..] == rows;
      assert Model().db == old(Model()).db;
    }

    method QueryInstances(virtualID: string) returns (rows: seq<Instance>)
      ensures IsRowListing(db, virtualID, rows)
    {
      rows := [];
      var pending := RowKeys(db, virtualID);
      while pending != {}
        invariant pending <= RowKeys(db, virtualID)
        invariant forall i | 0 <= i < |rows| ::
            && (virtualID, rows[i].serverID) in db.instances
            && db.instances[(virtualID, rows[i].serverID)] == InstanceRow(rows[i].originalID, rows[i].bitrate)
            && (virtualID, rows[i].serverID) !in pending
        invariant forall i, j | 0 <= i < j < |rows| :: rows[i].serverID != rows[j].serverID
        invariant forall server | (virtualID, server) in db.instances && (virtualID, server) !in pending ::
            exists i :: 0 <= i < |rows| && rows[i].serverID == server
        decreases pending
      {
        var k :| k in pending;
        pending := pending - {k};
        ghost var before := rows;
        rows := rows + [Instance(db.instances[k].originalID, k.1, db.instances[k].bitrate)];
        assert rows[|before|].serverID == k.1;
        forall s | (virtualID, s) in db.instances && (virtualID, s) !in pending
          ensures exists i :: 0 <= i < |rows| && rows[i].serverID == s
        {
          if s != k.1 {
            var i :| 0 <= i < |before| && before[i].serverID == s;
            assert rows[i].serverID == s;
          }
        }
      }
    }

    method SelectVirtualID(originalID: string, serverID: int) returns (existing: Option<string>)
      requires UniquePairs(db)
      ensures existing == SelectVirtual(db, originalID, serverID)
    {
      if exists v :: v in db.mapping && IsPair(db.mapping[v], originalID, serverID) {
        var v :| v in db.mapping && IsPair(db.mapping[v], originalID, serverID);
        SelectUnique(db, v, originalID, serverID);
        return Some(v);
      }
      return None;
    }

    method CleanupServer(serverID: int) returns (ok: bool)
      requires Valid()
      modifies this
      ensures Valid() && Repr == old(Repr)
      ensures Model() == IdMap.CleanupServer(old(Model()), serverID, old(Next()))
      ensures ok == (old(Next()).first && old(Next()).second) && clock == old(clock) + 1 && drawn == old(drawn)
    {
      ghost var s, d := Model(), Next();
      if Coherent(s) {
        CleanupCoherent(s, serverID, d);
      }
      ok := Clean(serverID);
    }

    method Clean(serverID: int) returns (ok: bool)
      requires Wired()
      modifies this
      ensures Wired() && Repr == old(Repr)
      ensures Model() == IdMap.CleanupServer(old(Model()), serverID, old(Next()))
      ensures ok == (old(Next()).first && old(Next()).second) && clock == old(clock) + 1 && drawn == old(drawn)
    {
      var d := outcomes(clock);
      clock := clock + 1;
      if !d.first {
        return false;
      }
      db := DeleteInstances(db, serverID);
      if !d.second {
        return false;
      }
      db := DeleteMappings(db, serverID);
      ghost var s := old(Model()).(db := db);

      var toDelete: set<string> := {};
      var pending := cache.Keys;
      while pending != {}
        invariant pending <= cache.Keys
        invariant toDelete == OnServer(s, serverID) - pending
        decreases pending
      {
        var v :| v in pending;
        pending := pending - {v};
        if cache[v].serverID == serverID {
          toDelete := toDelete + {v};
        }
      }
      ghost var doomed := toDelete;
      assert doomed == OnServer(s, serverID);
      assert Forget(s, doomed - toDelete) == s;
      while toDelete != {}
        invariant toDelete <= doomed && Repr == old(Repr) && Wired() && clock == old(clock) + 1 && drawn == old(drawn)
        invariant Model() == Forget(s, doomed - toDelete)
        decreases toDelete
      {
        var v :| v in toDelete;
        ForgetStep(s, doomed, toDelete, v);
        toDelete := toDelete - {v};
        Drop(v);
      }
      assert doomed - toDelete == doomed;
      return true;
    }

    method Drop(virtualID: string)
      requires Wired()
      modifies this
      ensures Wired() && Repr == old(Repr) && clock == old(clock) && drawn == old(drawn)
      ensures Model() == Forget(old(Model()), {virtualID})
    {
      ghost var s := Model();
      if virtualID in cache {
        var m := cache[virtualID];
        assert s.cache[virtualID] == m.Entry();
        assert KeysOf(s, {virtualID}) == {(m.originalID, m.serverID)};
        IndexedRemove(rmap, pairs, (m.originalID, m.serverID));
        rmap := rmap - {Key(m.originalID, m.serverID)};
        pairs := pairs - {(m.originalID, m.serverID)};
        cache, entries := cache - {virtualID}, entries - {virtualID};
      } else {
        assert KeysOf(s, {virtualID}) == {};
        assert s.cache - {virtualID} == s.cache && s.rmap - {} == s.rmap;
      }
    }
  }

  function OriginalOn(instances: seq<Instance>, upstreamID: int): Option<string>
  {
    var i := FindServer(instances, upstreamID);
    if i < |instances| then Some(instances[i].originalID) else None
  }

  // Whichever branch GetInstances took, and in whatever order the rows came, the first entry for an
  // upstream other than the primary's is the one OriginalForUpstream names.
  lemma ListingAnswers(s: State, virtualID: string, upstreamID: int, resolveOk: bool, rowsOk: bool, again: bool,
                       s': State, r: seq<Instance>)
    requires virtualID in s.cache && s.cache[virtualID].serverID != upstreamID
    requires ListsInstances(s, virtualID, rowsOk, again, s', r)
    ensures s' == s && OriginalOn(r, upstreamID) == OriginalForUpstream(s, virtualID, upstreamID, resolveOk, rowsOk)
  {
    if r != [] {
      assert r[0].serverID != upstreamID;
      assert OriginalOn(r, upstreamID) == OriginalOn(r[1..], upstreamID);
    }
    if CachedListing(s, virtualID) {
      assert r[1..] == s.cache[virtualID].instances;
    } else if rowsOk {
      var rows := r[1..];
      if (virtualID, upstreamID) in s.db.instances {
        var i :| 0 <= i < |rows| && rows[i].serverID == upstreamID;
        assert FindServer(rows, upstreamID) < |rows|;
      }
    }
  }

  lemma ResolvedAnswers(s: State, virtualID: string, upstreamID: int, ok: bool, rowsOk: bool)
    ensures var (t, found) := Resolve(s, virtualID, ok);
            found.Some? ==>
              && virtualID in t.cache && found.value == (t.cache[virtualID].originalID, t.cache[virtualID].serverID)
              && OriginalForUpstream(s, virtualID, upstreamID, ok, rowsOk)
              == OriginalForUpstream(t, virtualID, upstreamID, true, rowsOk)
  {}

  // originalIDForUpstream, the same in the proxy handler and in the aggregator. The ghost results are
  // the outcomes of the reads it made, true for one it did not make.
  method OriginalIDForUpstream(ids: Store, virtualID: string, upstreamID: int)
      returns (originalID: Option<string>, ghost resolveOk: bool, ghost rowsOk: bool)
    requires ids.Valid()
    modifies ids
    ensures ids.Valid() && ids.Repr >= old(ids.Repr) && fresh(ids.Repr - old(ids.Repr))
    ensures ids.clock >= old(ids.clock) && ids.drawn == old(ids.drawn)
    ensures ids.Worked(old(ids.clock)) ==> resolveOk && rowsOk
    ensures ids.Model() == IdMap.Resolve(old(ids.Model()), virtualID, resolveOk).0
    ensures originalID == OriginalForUpstream(old(ids.Model()), virtualID, upstreamID, resolveOk, rowsOk)
  {
    ghost var before := ids.Model();
    resolveOk, rowsOk := virtualID in ids.cache || ids.outcomes(ids.clock).first, true;
    var found := ids.Resolve(virtualID);
    if found.None? {
      return None, resolveOk, rowsOk;
    }
    var (original, serverID) := found.value;
    if serverID == upstreamID {
      return Some(original), resolveOk, rowsOk;
    }
    originalID, rowsOk := OriginalAmongInstances(ids, virtualID, upstreamID);
    ResolvedAnswers(before, virtualID, upstreamID, resolveOk, rowsOk);
  }

  lemma CachedOrRead(s: State, virtualID: string, upstreamID: int, rowsOk: bool, again: bool, s': State,
                     r: seq<Instance>)
    requires virtualID in s.cache && s.cache[virtualID].serverID != upstreamID
    requires ListsInstances(s, virtualID, rowsOk, again, s', r)
    ensures s' == s
    ensures OriginalOn(r, upstreamID)
         == OriginalForUpstream(s, virtualID, upstreamID, true, CachedListing(s, virtualID) || rowsOk)
  {
    ListingAnswers(s, virtualID, upstreamID, true, rowsOk, again, s', r);
  }

  method OriginalAmongInstances(ids: Store, virtualID: string, upstreamID: int)
      returns (originalID: Option<string>, ghost rowsOk: bool)
    requires ids.Valid() && virtualID in ids.entries && ids.entries[virtualID].serverID != upstreamID
    modifies ids
    ensures ids.Valid() && ids.Repr >= old(ids.Repr) && fresh(ids.Repr - old(ids.Repr))
    ensures ids.Model() == old(ids.Model()) && ids.clock >= old(ids.clock) && ids.drawn == old(ids.drawn)
    ensures ids.Worked(old(ids.clock)) ==> rowsOk
    ensures originalID == OriginalForUpstream(old(ids.Model()), virtualID, upstreamID, true, rowsOk)
  {
    var instances;
    instances, rowsOk := OtherInstances(ids, virtualID, upstreamID);
    for i := 0 to |instances|
      invariant forall j | 0 <= j < i :: instances[j].serverID != upstreamID
    {
      if instances[i].serverID == upstreamID {
        assert i == FindServer(instances, upstreamID);
        return Some(instances[i].originalID), rowsOk;
      }
    }
    return None, rowsOk;
  }

  method OtherInstances(ids: Store, virtualID: string, upstreamID: int)
      returns (instances: seq<Instance>, ghost rowsOk: bool)
    requires ids.Valid() && virtualID in ids.entries && ids.entries[virtualID].serverID != upstreamID
    modifies ids
    ensures ids.Valid() && ids.Repr >= old(ids.Repr) && fresh(ids.Repr - old(ids.Repr))
    ensures ids.Model() == old(ids.Model()) && ids.clock >= old(ids.clock) && ids.drawn == old(ids.drawn)
    ensures ids.Worked(old(ids.clock)) ==> rowsOk
    ensures OriginalOn(instances, upstreamID)
         == OriginalForUpstream(old(ids.Model()), virtualID, upstreamID, true, rowsOk)
  {
    ghost var s, first, again := ids.Model(), ids.outcomes(ids.clock).first, ids.outcomes(ids.clock + 1).first;
    instances := ids.GetInstances(virtualID);
    CachedOrRead(s, virtualID, upstreamID, first, again, ids.Model(), instances);
    rowsOk := CachedListing(s, virtualID) || first;
  }

  // The name a string has on a server; itself if the store could not name it.
  ghost predicate Named(s: State, originalID: string, serverID: int, faulty: bool, name: string)
  {
    || ((originalID, serverID) in s.rmap && name == s.rmap[(originalID, serverID)])
    || (faulty && name == originalID)
  }

  lemma GetOrCreateNames(s: State, originalID: string, serverID: int, itemType: string, d: Draw)
    requires Coherent(s) && ((originalID, serverID) !in s.rmap ==> d.id !in s.db.mapping)
    ensures var (t, name) := IdMap.GetOrCreate(s, originalID, serverID, itemType, d);
            && KeepsEntries(s, t)
            && Named(t, originalID, serverID, (originalID, serverID) !in s.rmap && !d.first, name)
  {
    GetOrCreateGrows(s, originalID, serverID, itemType, d);
    GetOrCreateAnswers(s, originalID, serverID, itemType, d);
  }

  // GetOrCreate, and what it means as long as the store is reliable.
  method NameItem(ids: Store, originalID: string, serverID: int, itemType: string) returns (virtualID: string)
    requires ids.Valid()
    modifies ids
    ensures ids.Valid() && ids.Repr >= old(ids.Repr) && fresh(ids.Repr - old(ids.Repr))
    ensures ids.clock >= old(ids.clock) && old(ids.drawn) <= ids.drawn <= old(ids.drawn) + 1
    ensures ids.Reliable() ==>
              && KeepsEntries(old(ids.Model()), ids.Model())
              && Named(ids.Model(), originalID, serverID, !ids.Worked(old(ids.clock)), virtualID)
  {
    ghost var s, d := ids.Model(), ids.Next();
    virtualID := ids.GetOrCreate(originalID, serverID, itemType);
    if ids.Reliable() {
      GetOrCreateNames(s, originalID, serverID, itemType, d);
    }
  }

  method LookUpOriginal(ids: Store, virtualID: string, upstreamID: int)
      returns (originalID: Option<string>, ghost rowsOk: bool)
    requires ids.Valid()
    modifies ids
    ensures ids.Valid() && ids.Repr >= old(ids.Repr) && fresh(ids.Repr - old(ids.Repr))
    ensures ids.clock >= old(ids.clock) && ids.drawn == old(ids.drawn)
    ensures ids.Worked(old(ids.clock)) ==> rowsOk
    ensures old(Coherent(ids.Model())) ==>
              ids.Model() == old(ids.Model()) &&
                originalID == OriginalForUpstream(ids.Model(), virtualID, upstreamID, true, rowsOk)
  {
    ghost var s, resolveOk := ids.Model(), true;
    originalID, resolveOk, rowsOk := OriginalIDForUpstream(ids, virtualID, upstreamID);
    if Coherent(s) {
      ResolveCoherent(s, virtualID, resolveOk);
      OriginalCoherent(s, virtualID, upstreamID, resolveOk, rowsOk);
    }
  }
}
