// The virtual-ID store of internal/idmap, as a state and the transitions its operations make.
// The class that performs them is IdStore.Store; everything that is proved about more than one
// operation is proved here and in StoreRuns, about these transitions.
module IdMap {
  import opened Wrappers
  import opened Text
  import Hex

  // ---------- generated virtual IDs ----------

  type Entropy = b: seq<Hex.byte> | |b| == 16 witness seq(16, _ => 0)

  // One call's share of the outside world: the virtual ID it would generate, and whether the first
  // and the second SQL statement it would run succeed.
  datatype Draw = Draw(id: string, first: bool, second: bool)

  // The version and variant bits of a random UUID, section 4.4 of RFC 4122.
  function Stamp(b: Entropy): Entropy
  {
    b[6 := b[6] % 16 + 64][8 := b[8] % 64 + 128]
  }

  function GenerateVirtualID(entropy: Entropy): string
  {
    var b := Stamp(entropy);
    Hex.Encode(b[0..4]) + Hex.Encode(b[4..6]) + Hex.Encode(b[6..8]) + Hex.Encode(b[8..10]) + Hex.Encode(b[10..16])
  }

  predicate IsLikelyVirtualID(value: string)
  {
    |value| == 32 &&
    forall c | c in value :: '0' <= c <= '9' || 'a' <= c <= 'f' || 'A' <= c <= 'F'
  }

  // The five groups in a row are the sixteen bytes in hex.
  lemma GroupsAreWhole(b: Entropy)
    ensures Hex.Encode(b[0..4]) + Hex.Encode(b[4..6]) + Hex.Encode(b[6..8]) + Hex.Encode(b[8..10]) +
            Hex.Encode(b[10..16])
         == Hex.Encode(b)
  {
    Hex.EncodeConcat(b[0..4], b[4..6]);
    assert b[0..4] + b[4..6] == b[0..6];
    Hex.EncodeConcat(b[0..6], b[6..8]);
    assert b[0..6] + b[6..8] == b[0..8];
    Hex.EncodeConcat(b[0..8], b[8..10]);
    assert b[0..8] + b[8..10] == b[0..10];
    Hex.EncodeConcat(b[0..10], b[10..16]);
    assert b[0..10] + b[10..16] == b;
  }

  // A generated ID has the shape the path rewriters look for, and is 16 stamped bytes in hex.
  lemma GeneratedShape(entropy: Entropy)
    ensures IsLikelyVirtualID(GenerateVirtualID(entropy))
    ensures Hex.Decode(GenerateVirtualID(entropy)) == Some(Stamp(entropy))
  {
    var b := Stamp(entropy);
    GroupsAreWhole(b);
    Hex.RoundTrip(b);
    Hex.EncodeIsHex(b);
  }

  // Two draws give one ID exactly when they agree outside the six fixed bits.
  lemma GeneratedEqual(a: Entropy, b: Entropy)
    ensures GenerateVirtualID(a) == GenerateVirtualID(b) <==> Stamp(a) == Stamp(b)
  {
    GeneratedShape(a);
    GeneratedShape(b);
  }

  // ---------- the two SQL tables ----------

  datatype Row = Row(originalID: string, serverID: int, itemType: string)

  datatype InstanceRow = InstanceRow(originalID: string, bitrate: int)

  // id_mapping is keyed by virtual_id, id_instances by (virtual_id, server_id).
  datatype Tables = Tables(mapping: map<string, Row>, instances: map<(string, int), InstanceRow>)

  predicate IsPair(row: Row, originalID: string, serverID: int)
  {
    row.originalID == originalID && row.serverID == serverID
  }

  predicate HasPair(db: Tables, originalID: string, serverID: int)
  {
    exists v | v in db.mapping :: IsPair(db.mapping[v], originalID, serverID)
  }

  // UNIQUE(original_id, server_id)
  ghost predicate UniquePairs(db: Tables)
  {
    forall v, w | v in db.mapping && w in db.mapping &&
                  IsPair(db.mapping[v], db.mapping[w].originalID, db.mapping[w].serverID) :: v == w
  }

  // INSERT OR IGNORE INTO id_mapping: a clash with either key leaves the table as it was.
  function InsertOrIgnore(db: Tables, virtualID: string, row: Row): Tables
  {
    if virtualID in db.mapping || HasPair(db, row.originalID, row.serverID) then db
    else db.(mapping := db.mapping[virtualID := row])
  }

  ghost predicate NoRows(db: Tables, virtualID: string)
  {
    forall server :: (virtualID, server) !in db.instances
  }

  // SELECT virtual_id FROM id_mapping WHERE original_id = ? AND server_id = ?
  ghost function SelectVirtual(db: Tables, originalID: string, serverID: int): Option<string>
  {
    if HasPair(db, originalID, serverID) then
      var v :| v in db.mapping && IsPair(db.mapping[v], originalID, serverID);
      Some(v)
    else None
  }

  lemma SelectUnique(db: Tables, virtualID: string, originalID: string, serverID: int)
    requires UniquePairs(db) && virtualID in db.mapping && IsPair(db.mapping[virtualID], originalID, serverID)
    ensures SelectVirtual(db, originalID, serverID) == Some(virtualID)
  {}

  // INSERT OR REPLACE INTO id_instances
  function ReplaceInstance(db: Tables, virtualID: string, serverID: int, row: InstanceRow): Tables
  {
    db.(instances := db.instances[(virtualID, serverID) := row])
  }

  // ---------- the store ----------

  datatype Instance = Instance(originalID: string, serverID: int, bitrate: int)

  datatype Entry = Entry(originalID: string, serverID: int, itemType: string, instances: seq<Instance>)

  type Pair = (string, int)

  // rmap is keyed by pairs here; the object's text keys stand for them (see KeyInjective).
  datatype State = State(cache: map<string, Entry>, rmap: map<Pair, string>, db: Tables)

  function PairOf(e: Entry): Pair
  {
    (e.originalID, e.serverID)
  }

  // The text under which the rmap index of the store object files a pair.
  function Key(originalID: string, serverID: int): string
  {
    originalID + ":" + Decimal(serverID)
  }

  // The text key names its pair, whatever colons the original ID holds.
  lemma KeyInjective(o1: string, s1: int, o2: string, s2: int)
    requires Key(o1, s1) == Key(o2, s2)
    ensures o1 == o2 && s1 == s2
  {
    DecimalShape(s1);
    DecimalShape(s2);
    SameLastColon(o1, Decimal(s1), o2, Decimal(s2));
    DecimalInjective(s1, s2);
  }

  // A text is cut at its last colon in one way only.
  lemma SameLastColon(x: string, s: string, y: string, t: string)
    requires ':' !in s && ':' !in t && x + ":" + s == y + ":" + t
    ensures x == y && s == t
  {
    ColonPlace(x, s, y, t);
    ColonPlace(y, t, x, s);
    var k := x + ":" + s;
    assert x == k[..|k| - |s| - 1] == y && s == k[|k| - |s|..] == t;
  }

  lemma ColonPlace(o1: string, d1: string, o2: string, d2: string)
    requires ':' !in d2
    requires o1 + ":" + d1 == o2 + ":" + d2
    ensures |d1| >= |d2|
  {
    var k := o1 + ":" + d1;
    assert k[|o1|] == ':';
    assert forall i | 0 <= i < |d2| :: k[|o2| + 1 + i] == d2[i];
  }

  function Publish(s: State, virtualID: string, row: Row): State
  {
    s.(cache := s.cache[virtualID := Entry(row.originalID, row.serverID, row.itemType, [])],
       rmap := s.rmap[(row.originalID, row.serverID) := virtualID])
  }

  ghost function GetOrCreate(s: State, originalID: string, serverID: int, itemType: string, d: Draw): (State, string)
  {
    var key := (originalID, serverID);
    var row := Row(originalID, serverID, itemType);
    if key in s.rmap then (s, s.rmap[key])
    else if d.first then
      (Publish(s.(db := InsertOrIgnore(s.db, d.id, row)), d.id, row), d.id)
    else
      var existing := SelectVirtual(s.db, originalID, serverID);
      if d.second && existing.Some? && existing.value != "" then
        (s.(rmap := s.rmap[key := existing.value]), existing.value)
      else (s, originalID)
  }

  function Resolve(s: State, virtualID: string, ok: bool): (State, Option<(string, int)>)
  {
    if virtualID in s.cache then
      (s, Some(PairOf(s.cache[virtualID])))
    else if ok && virtualID in s.db.mapping then
      var row := s.db.mapping[virtualID];
      (Publish(s, virtualID, row.(itemType := "")), Some((row.originalID, row.serverID)))
    else (s, None)
  }

  // Position of the cached instance on a server, |instances| if there is none.
  function FindServer(instances: seq<Instance>, serverID: int): (i: nat)
    ensures i <= |instances|
    ensures i < |instances| ==> instances[i].serverID == serverID
    ensures forall j | 0 <= j < i :: instances[j].serverID != serverID
  {
    if instances == [] || instances[0].serverID == serverID then 0
    else 1 + FindServer(instances[1..], serverID)
  }

  function SetInstance(instances: seq<Instance>, inst: Instance): seq<Instance>
  {
    var i := FindServer(instances, inst.serverID);
    if i < |instances| then instances[i := inst] else instances + [inst]
  }

  function AddInstance(s: State, virtualID: string, inst: Instance, ok: bool): State
  {
    if !ok then s
    else
      var db := ReplaceInstance(s.db, virtualID, inst.serverID, InstanceRow(inst.originalID, inst.bitrate));
      if virtualID in s.cache then
        var e := s.cache[virtualID];
        s.(db := db, cache := s.cache[virtualID := e.(instances := SetInstance(e.instances, inst))])
      else s.(db := db)
  }

  function RowKeys(db: Tables, virtualID: string): set<(string, int)>
  {
    set k | k in db.instances && k.0 == virtualID
  }

  // The rows of id_instances for one virtual ID, in whatever order the database yields them.
  ghost predicate IsRowListing(db: Tables, virtualID: string, rows: seq<Instance>)
  {
    && (forall i | 0 <= i < |rows| ::
          && (virtualID, rows[i].serverID) in db.instances
          && db.instances[(virtualID, rows[i].serverID)] == InstanceRow(rows[i].originalID, rows[i].bitrate))
    && (forall i, j | 0 <= i < j < |rows| :: rows[i].serverID != rows[j].serverID)
    && (forall server | (virtualID, server) in db.instances :: exists i ::
       0 <= i < |rows| && rows[i].serverID == server)
  }

  predicate CachedListing(s: State, virtualID: string)
  {
    virtualID in s.cache && s.cache[virtualID].instances != []
  }

  function PrimaryInstance(found: Option<(string, int)>): seq<Instance>
  {
    match found
    case Some((originalID, serverID)) => [Instance(originalID, serverID, 0)]
    case None => []
  }

  // What GetInstances may return, and the state it leaves.
  ghost predicate ListsInstances(s: State, virtualID: string, rowsOk: bool, resolveOk: bool, s': State,
                                 r: seq<Instance>)
  {
    if CachedListing(s, virtualID) then
      var e := s.cache[virtualID];
      s' == s && r == [Instance(e.originalID, e.serverID, 0)] + e.instances
    else if !rowsOk then s' == s && r == []
    else
      var primary := PrimaryInstance(Resolve(s, virtualID, resolveOk).1);
      && s' == Resolve(s, virtualID, resolveOk).0
      && primary <= r
      && IsRowListing(s.db, virtualID, r[|primary|..])
  }

  function DeleteInstances(db: Tables, serverID: int): Tables
  {
    db.(instances := map k | k in db.instances && k.1 != serverID :: db.instances[k])
  }

  function DeleteMappings(db: Tables, serverID: int): Tables
  {
    db.(mapping := map v | v in db.mapping && db.mapping[v].serverID != serverID :: db.mapping[v])
  }

  function OnServer(s: State, serverID: int): set<string>
  {
    set v | v in s.cache && s.cache[v].serverID == serverID
  }

  function KeysOf(s: State, ids: set<string>): set<Pair>
  {
    set v | v in ids && v in s.cache :: PairOf(s.cache[v])
  }

  // Takes cached mappings and their keys out of both indexes.
  function Forget(s: State, ids: set<string>): State
  {
    s.(cache := s.cache - ids, rmap := s.rmap - KeysOf(s, ids))
  }

  lemma ForgetStep(s: State, ids: set<string>, rest: set<string>, v: string)
    requires v in rest && rest <= ids && v in s.cache
    ensures Forget(s, ids - (rest - {v})) == Forget(Forget(s, ids - rest), {v})
  {
    var done := ids - rest;
    assert ids - (rest - {v}) == done + {v};
    assert KeysOf(s, done + {v}) == KeysOf(s, done) + {PairOf(s.cache[v])};
    assert v in Forget(s, done).cache;
    assert KeysOf(Forget(s, done), {v}) == {PairOf(s.cache[v])};
    assert s.cache - (done + {v}) == (s.cache - done) - {v};
    assert s.rmap - (KeysOf(s, done) + {PairOf(s.cache[v])})
        == (s.rmap - KeysOf(s, done)) - {PairOf(s.cache[v])};
  }

  // CleanupServer: two DELETE statements, then the cache.
  function CleanupServer(s: State, serverID: int, d: Draw): State
  {
    if !d.first then s
    else if !d.second then s.(db := DeleteInstances(s.db, serverID))
    else
      Forget(s.(db := DeleteMappings(DeleteInstances(s.db, serverID), serverID)), OnServer(s, serverID))
  }

  // NewStore: the rows the start-up query delivered before it ended.
  ghost predicate Loaded(db: Tables, delivered: set<string>, s: State)
  {
    && s.db == db
    && s.cache == (map v | v in db.mapping && v in delivered ::
                     Entry(db.mapping[v].originalID, db.mapping[v].serverID, db.mapping[v].itemType, []))
    && (forall v | v in s.cache :: PairOf(s.cache[v]) in s.rmap)
    && (forall k | k in s.rmap :: s.rmap[k] in s.cache &&
          k == PairOf(s.cache[s.rmap[k]]))
  }

  lemma LoadedStep(db: Tables, all: set<string>, rest: set<string>, s: State, v: string)
    requires Loaded(db, all - rest, s) && v in db.mapping && v in rest && rest <= all
    ensures Loaded(db, all - (rest - {v}), Publish(s, v, db.mapping[v]))
  {
    assert all - (rest - {v}) == all - rest + {v};
    var t := Publish(s, v, db.mapping[v]);
    assert t.cache.Keys == s.cache.Keys + {v};
    forall k | k in t.rmap
      ensures t.rmap[k] in t.cache && k == PairOf(t.cache[t.rmap[k]])
    {
    }
  }

  // originalIDForUpstream of the proxy handler and of the aggregator: the name an upstream knows an
  // item by. The flags tell whether the two database reads succeed, if they are reached.
  function OriginalForUpstream(s: State, virtualID: string, upstreamID: int, resolveOk: bool,
                               rowsOk: bool): Option<string>
  {
    match Resolve(s, virtualID, resolveOk).1
    case None => None
    case Some((originalID, serverID)) =>
      if serverID == upstreamID then Some(originalID)
      else if CachedListing(s, virtualID) then
        var instances := s.cache[virtualID].instances;
        var i := FindServer(instances, upstreamID);
        if i < |instances| then Some(instances[i].originalID) else None
      else if rowsOk && (virtualID, upstreamID) in s.db.instances then
        Some(s.db.instances[(virtualID, upstreamID)].originalID)
      else None
  }

  // ---------- coherence ----------

  ghost predicate EntryOf(row: Row, e: Entry)
  {
    e.originalID == row.originalID && e.serverID == row.serverID && e.itemType == row.itemType
  }

  // The cache is the id_mapping table and rmap is its exact inverse.
  ghost predicate Coherent(s: State)
  {
    && UniquePairs(s.db)
    && s.cache.Keys == s.db.mapping.Keys
    && (forall v | v in s.cache :: EntryOf(s.db.mapping[v], s.cache[v]))
    && (forall v | v in s.cache ::
          var key := PairOf(s.cache[v]);
          key in s.rmap && s.rmap[key] == v)
    && (forall k | k in s.rmap :: s.rmap[k] in s.cache &&
          k == PairOf(s.cache[s.rmap[k]]))
  }

  // What a store that only grows keeps: every mapping, under its ID and its key.
  ghost predicate Grows(s: State, t: State)
  {
    && (forall v | v in s.cache :: v in t.cache &&
          t.cache[v].originalID == s.cache[v].originalID && t.cache[v].serverID == s.cache[v].serverID)
    && (forall k | k in s.rmap :: k in t.rmap && t.rmap[k] == s.rmap[k])
  }

  // Also every cached entry stays as it is, its instances included.
  ghost predicate KeepsEntries(s: State, t: State)
  {
    && (forall v | v in s.cache :: v in t.cache && t.cache[v] == s.cache[v])
    && (forall k | k in s.rmap :: k in t.rmap && t.rmap[k] == s.rmap[k])
  }

  lemma PairIsIndexed(s: State, originalID: string, serverID: int)
    requires Coherent(s)
    ensures HasPair(s.db, originalID, serverID) <==> (originalID, serverID) in s.rmap
  {
    if HasPair(s.db, originalID, serverID) {
      var v :| v in s.db.mapping && IsPair(s.db.mapping[v], originalID, serverID);
      assert v in s.cache;
    }
    if (originalID, serverID) in s.rmap {
      var v := s.rmap[(originalID, serverID)];
      assert IsPair(s.db.mapping[v], originalID, serverID);
    }
  }

  // The start-up load is coherent exactly when every row was delivered: the code notices neither a
  // failed query nor one that ends early.
  lemma LoadCoherentIff(db: Tables, delivered: set<string>, s: State)
    requires UniquePairs(db) && Loaded(db, delivered, s)
    ensures Coherent(s) <==> db.mapping.Keys <= delivered
  {
    if db.mapping.Keys <= delivered {
      assert s.cache.Keys == db.mapping.Keys;
      forall v | v in s.cache
        ensures var key := PairOf(s.cache[v]);
                key in s.rmap && s.rmap[key] == v
      {
        var key := PairOf(s.cache[v]);
        var w := s.rmap[key];
        assert IsPair(db.mapping[v], db.mapping[w].originalID, db.mapping[w].serverID);
      }
    } else {
      var v :| v in db.mapping.Keys && v !in delivered;
      assert v !in s.cache.Keys;
    }
  }

  // When a mapping has to be made and its INSERT reports no error, coherence survives exactly if
  // the generated ID is not yet a key of id_mapping; in every other case it survives.
  lemma GetOrCreateCoherentIff(s: State, originalID: string, serverID: int, itemType: string, d: Draw)
    requires Coherent(s)
    ensures Coherent(GetOrCreate(s, originalID, serverID, itemType, d).0) <==>
            ((originalID, serverID) !in s.rmap && d.first ==> d.id !in s.db.mapping)
  {
    var key := (originalID, serverID);
    var (t, vid) := GetOrCreate(s, originalID, serverID, itemType, d);
    PairIsIndexed(s, originalID, serverID);
    if key !in s.rmap && d.first {
      if vid in s.db.mapping {
        assert t.db == s.db;
        assert !IsPair(s.db.mapping[vid], originalID, serverID);
        assert !EntryOf(t.db.mapping[vid], t.cache[vid]);
      } else {
        assert t.db.mapping == s.db.mapping[vid := Row(originalID, serverID, itemType)];
        forall v | v in s.cache
          ensures PairOf(s.cache[v]) != key
        {
        }
        forall k | k in t.rmap
          ensures t.rmap[k] in t.cache && k == PairOf(t.cache[t.rmap[k]])
        {
          if k != key {
            assert s.rmap[k] in s.cache && s.rmap[k] != vid;
          }
        }
        assert Coherent(t);
      }
    }
  }

  lemma GetOrCreateGrows(s: State, originalID: string, serverID: int, itemType: string, d: Draw)
    requires Coherent(s)
    requires (originalID, serverID) !in s.rmap && d.first ==> d.id !in s.db.mapping
    ensures KeepsEntries(s, GetOrCreate(s, originalID, serverID, itemType, d).0)
    ensures Grows(s, GetOrCreate(s, originalID, serverID, itemType, d).0)
  {
    PairIsIndexed(s, originalID, serverID);
  }

  // The tables gain at most the mapping made, under the drawn ID.
  lemma GetOrCreateTables(s: State, originalID: string, serverID: int, itemType: string, d: Draw)
    requires Coherent(s)
    ensures var t := GetOrCreate(s, originalID, serverID, itemType, d).0;
            && t.db.instances == s.db.instances
            && forall v | v in t.db.mapping :: v in s.db.mapping || (v == d.id && (originalID, serverID) !in s.rmap)
  {}

  // What the caller gets: unless the INSERT failed, the one ID under which the pair is now kept.
  lemma GetOrCreateAnswers(s: State, originalID: string, serverID: int, itemType: string, d: Draw)
    requires Coherent(s)
    requires (originalID, serverID) !in s.rmap && d.first ==> d.id !in s.db.mapping
    ensures var (t, vid) := GetOrCreate(s, originalID, serverID, itemType, d);
            && (d.first || (originalID, serverID) in s.rmap ==>
                  (originalID, serverID) in t.rmap && t.rmap[(originalID, serverID)] == vid &&
                  Resolve(t, vid, true) == (t, Some((originalID, serverID))))
            && (!d.first && (originalID, serverID) !in s.rmap ==> t == s && vid == originalID)
  {
    PairIsIndexed(s, originalID, serverID);
  }

  // In a coherent store the database adds nothing to the cache: Resolve never changes the store and
  // answers exactly for the keys of id_mapping, whether or not the read succeeds.
  lemma ResolveCoherent(s: State, virtualID: string, ok: bool)
    requires Coherent(s)
    ensures Resolve(s, virtualID, ok).0 == s
    ensures Resolve(s, virtualID, ok).1 ==
            if virtualID in s.db.mapping then
              Some((s.db.mapping[virtualID].originalID, s.db.mapping[virtualID].serverID))
            else None
  {
    assert virtualID in s.cache <==> virtualID in s.db.mapping;
  }

  lemma OriginalCoherent(s: State, virtualID: string, upstreamID: int, ok: bool, rowsOk: bool)
    requires Coherent(s)
    ensures OriginalForUpstream(s, virtualID, upstreamID, ok, rowsOk)
         == OriginalForUpstream(s, virtualID, upstreamID, true, rowsOk)
  {
    ResolveCoherent(s, virtualID, ok);
    ResolveCoherent(s, virtualID, true);
  }

  // Only instances may differ.
  ghost predicate SameMappings(s: State, t: State)
  {
    && t.db.mapping == s.db.mapping && t.rmap == s.rmap && t.cache.Keys == s.cache.Keys
    && (forall v | v in s.cache :: t.cache[v].(instances := s.cache[v].instances) == s.cache[v])
  }

  lemma SameMappingsCoherent(s: State, t: State)
    requires Coherent(s) && SameMappings(s, t)
    ensures Coherent(t) && Grows(s, t)
  {
    assert forall v | v in t.cache :: PairOf(t.cache[v]) == PairOf(s.cache[v]) && EntryOf(t.db.mapping[v], t.cache[v]);
  }

  lemma AddInstanceSameMappings(s: State, virtualID: string, inst: Instance, ok: bool)
    ensures SameMappings(s, AddInstance(s, virtualID, inst, ok))
  {
    if virtualID in s.cache {
      var e := s.cache[virtualID];
      assert s.cache[virtualID := e.(instances := SetInstance(e.instances, inst))].Keys == s.cache.Keys;
    }
  }

  lemma AddInstanceCoherent(s: State, virtualID: string, inst: Instance, ok: bool)
    requires Coherent(s)
    ensures Coherent(AddInstance(s, virtualID, inst, ok))
    ensures Grows(s, AddInstance(s, virtualID, inst, ok))
  {
    AddInstanceSameMappings(s, virtualID, inst, ok);
    SameMappingsCoherent(s, AddInstance(s, virtualID, inst, ok));
  }

  lemma CleanupCoherent(s: State, serverID: int, d: Draw)
    requires Coherent(s)
    ensures Coherent(CleanupServer(s, serverID, d))
  {
    var t := CleanupServer(s, serverID, d);
    if d.first && d.second {
      assert t.cache.Keys == t.db.mapping.Keys;
      forall v | v in t.cache
        ensures var key := PairOf(t.cache[v]);
                key in t.rmap && t.rmap[key] == v
      {
        var key := PairOf(s.cache[v]);
        if w :| w in s.cache && s.cache[w].serverID == serverID && PairOf(s.cache[w]) == key {
          assert false;
        }
      }
      forall k | k in t.rmap
        ensures t.rmap[k] in t.cache && k == PairOf(t.cache[t.rmap[k]])
      {
        assert s.rmap[k] in s.cache;
      }
    }
  }
}
