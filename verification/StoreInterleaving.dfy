// GetOrCreate and Resolve called from any number of goroutines at once: every atomic step of the two
// methods of internal/idmap/store.go is one event, and a run is any sequence of possible events.
module StoreInterleaving {
  import opened Wrappers
  import opened IdMap

  type Tid = nat

  // Where a goroutine stands inside a call.
  datatype Thread =
    | Idle
    | Missed(pair: Pair)                    // GetOrCreate: not in rmap when looked at without the write lock
    | Inserting(pair: Pair)                 // GetOrCreate: has the write lock, still not in rmap
    | Publishing(pair: Pair, id: string)    // GetOrCreate: has the write lock, the INSERT is done
    | Querying(id: string)                  // Resolve: not in the cache
    | Filling(id: string, pair: Pair)       // Resolve: has the row, not yet the write lock

  // The shared indexes and table, the write lock, and what calls have returned so far. An INSERT has
  // failed at some time if faulty.
  datatype Shared = Shared(
    cache: map<string, Pair>,
    rmap: map<Pair, string>,
    mapping: map<string, Pair>,
    writer: Option<Tid>,
    threads: map<Tid, Thread>,
    returned: set<(Pair, string)>,
    resolved: set<(string, Pair)>,
    faulty: bool)

  datatype Event =
    | Look(tid: Tid, pair: Pair)                                  // read-locked index lookup
    | Acquire(tid: Tid)                                           // write lock, second lookup
    | Insert(tid: Tid, id: string, execOk: bool, queryOk: bool)   // the INSERT, or its error path
    | Publish(tid: Tid)                                           // both indexes, unlock
    | LookId(tid: Tid, id: string)                                // read-locked cache lookup
    | Query(tid: Tid, queryOk: bool)                              // SELECT outside the lock
    | Fill(tid: Tid)                                              // write-locked cache fill

  function At(s: Shared, tid: Tid): Thread
  {
    if tid in s.threads then s.threads[tid] else Idle
  }

  function To(s: Shared, tid: Tid, thread: Thread): Shared
  {
    s.(threads := s.threads[tid := thread])
  }

  function Return(s: Shared, tid: Tid, pair: Pair, id: string): Shared
  {
    To(s, tid, Idle).(returned := s.returned + {(pair, id)})
  }

  predicate Possible(s: Shared, e: Event)
  {
    match e
    case Look(tid, _) => At(s, tid).Idle? && s.writer.None?
    case Acquire(tid) => At(s, tid).Missed? && s.writer.None?
    case Insert(tid, _, _, _) => At(s, tid).Inserting?
    case Publish(tid) => At(s, tid).Publishing?
    case LookId(tid, _) => At(s, tid).Idle? && s.writer.None?
    case Query(tid, _) => At(s, tid).Querying?
    case Fill(tid) => At(s, tid).Filling? && s.writer.None?
  }

  predicate PairStored(s: Shared, pair: Pair)
  {
    exists v | v in s.mapping :: s.mapping[v] == pair
  }

  ghost function Select(s: Shared, pair: Pair): Option<string>
  {
    if PairStored(s, pair) then
      var v :| v in s.mapping && s.mapping[v] == pair;
      Some(v)
    else None
  }

  ghost function Next(s: Shared, e: Event): Shared
    requires Possible(s, e)
  {
    match e
    case Look(tid, pair) =>
      if pair in s.rmap then Return(s, tid, pair, s.rmap[pair]) else To(s, tid, Missed(pair))
    case Acquire(tid) =>
      var pair := At(s, tid).pair;
      if pair in s.rmap then Return(s, tid, pair, s.rmap[pair])
      else To(s, tid, Inserting(pair)).(writer := Some(tid))
    case Insert(tid, id, execOk, queryOk) =>
      var pair := At(s, tid).pair;
      if execOk then
        var s' := if id in s.mapping || PairStored(s, pair) then s else s.(mapping := s.mapping[id := pair]);
        To(s', tid, Publishing(pair, id))
      else
        var existing := Select(s, pair);
        if queryOk && existing.Some? && existing.value != "" then
          Return(s, tid, pair, existing.value).(rmap := s.rmap[pair := existing.value], writer := None, faulty := true)
        else
          Return(s, tid, pair, pair.0).(writer := None, faulty := true)
    case Publish(tid) =>
      var t := At(s, tid);
      Return(s, tid, t.pair, t.id).(cache := s.cache[t.id := t.pair], rmap := s.rmap[t.pair := t.id], writer := None)
    case LookId(tid, id) =>
      if id in s.cache then s.(resolved := s.resolved + {(id, s.cache[id])}) else To(s, tid, Querying(id))
    case Query(tid, queryOk) =>
      var id := At(s, tid).id;
      if queryOk && id in s.mapping then To(s, tid, Filling(id, s.mapping[id])) else To(s, tid, Idle)
    case Fill(tid) =>
      var t := At(s, tid);
      To(s, tid, Idle).(cache := s.cache[t.id := t.pair], rmap := s.rmap[t.pair := t.id],
                        resolved := s.resolved + {(t.id, t.pair)})
  }

  // The random source does not repeat an ID that is in the table.
  predicate Fresh(s: Shared, e: Event)
  {
    e.Insert? && e.execOk ==> e.id !in s.mapping
  }

  ghost predicate Execution(s: Shared, events: seq<Event>)
    decreases |events|
  {
    events == [] ||
    (Possible(s, events[0]) && Fresh(s, events[0]) && Execution(Next(s, events[0]), events[1..]))
  }

  ghost function After(s: Shared, events: seq<Event>): Shared
    requires Execution(s, events)
    decreases |events|
  {
    if events == [] then s else After(Next(s, events[0]), events[1..])
  }

  // A store right after a complete start-up load, with no call under way.
  ghost predicate Started(s: Shared)
  {
    && IndexesAgree(s)
    && s.writer == None && s.threads == map[] && s.returned == {} && s.resolved == {} && !s.faulty
  }

  // The cache is the table and rmap is its exact inverse.
  ghost predicate IndexesAgree(s: Shared)
  {
    && s.cache == s.mapping
    && (forall v | v in s.cache :: s.cache[v] in s.rmap && s.rmap[s.cache[v]] == v)
    && (forall p | p in s.rmap :: s.rmap[p] in s.cache && s.cache[s.rmap[p]] == p)
  }

  // ---------- what every step keeps ----------

  // The row is in both indexes, or its creator is about to put it there.
  ghost predicate Settled(s: Shared, v: string)
    requires v in s.mapping
  {
    || (v in s.cache && s.mapping[v] in s.rmap && s.rmap[s.mapping[v]] == v)
    || (s.writer.Some? && At(s, s.writer.value) == Publishing(s.mapping[v], v) && s.mapping[v] !in s.rmap)
  }

  ghost predicate ThreadOk(s: Shared, tid: Tid)
  {
    match At(s, tid)
    case Inserting(pair) => s.writer == Some(tid) && pair !in s.rmap
    case Publishing(pair, id) => s.writer == Some(tid) && id in s.mapping && s.mapping[id] == pair && pair !in s.rmap
    case Filling(id, pair) => s.writer != Some(tid) && id in s.mapping && s.mapping[id] == pair
    case _ => s.writer != Some(tid)
  }

  // Cache and rmap hold rows of the table, which has each pair once, and answers come from them.
  ghost predicate IndexOk(s: Shared)
  {
    && (forall v | v in s.cache :: v in s.mapping && s.mapping[v] == s.cache[v])
    && (forall p | p in s.rmap :: s.rmap[p] in s.cache && s.cache[s.rmap[p]] == p)
    && (forall v, w | v in s.mapping && w in s.mapping && s.mapping[v] == s.mapping[w] :: v == w)
    && (forall r | r in s.returned :: (r.0 in s.rmap && s.rmap[r.0] == r.1) || (s.faulty && r.1 == r.0.0))
    && (forall r | r in s.resolved :: r.0 in s.cache && s.cache[r.0] == r.1)
  }

  ghost predicate Inv(s: Shared)
  {
    && IndexOk(s)
    && (forall v | v in s.mapping :: Settled(s, v))
    && (forall tid :: ThreadOk(s, tid))
  }

  // No index entry is ever taken back or changed.
  ghost predicate Extends(s: Shared, s': Shared)
  {
    && (forall v | v in s.cache :: v in s'.cache && s'.cache[v] == s.cache[v])
    && (forall p | p in s.rmap :: p in s'.rmap && s'.rmap[p] == s.rmap[p])
  }

  lemma StartedInv(s: Shared)
    requires Started(s)
    ensures Inv(s)
  {
    forall v, w | v in s.mapping && w in s.mapping && s.mapping[v] == s.mapping[w]
      ensures v == w
    {
      assert v in s.cache && w in s.cache;
    }
  }

  // A step that leaves the indexes and the table alone.
  lemma SameStoreInv(s: Shared, s': Shared, tid: Tid)
    requires Inv(s) && !At(s, tid).Publishing? && s.writer != Some(tid)
    requires s'.cache == s.cache && s'.rmap == s.rmap && s'.mapping == s.mapping && s'.faulty == s.faulty
    requires s'.threads == s.threads || s'.threads == s.threads[tid := At(s', tid)]
    requires s'.writer == s.writer || (s.writer.None? && s'.writer == Some(tid))
    requires ThreadOk(s', tid)
    requires forall r | r in s'.returned :: r in s.returned || (r.0 in s.rmap && s.rmap[r.0] == r.1)
    requires forall r | r in s'.resolved :: r in s.resolved || (r.0 in s.cache && s.cache[r.0] == r.1)
    ensures Inv(s') && Extends(s, s')
  {
    forall u
      ensures ThreadOk(s', u)
    {
      assert ThreadOk(s, u);
      assert u != tid ==> At(s', u) == At(s, u);
    }
    forall v | v in s'.mapping
      ensures Settled(s', v)
    {
      assert Settled(s, v);
      assert s.writer.Some? ==> At(s', s.writer.value) == At(s, s.writer.value);
    }
  }

  lemma LookInv(s: Shared, e: Event)
    requires Inv(s) && Possible(s, e) && e.Look?
    ensures Inv(Next(s, e)) && Extends(s, Next(s, e))
  {
    assert ThreadOk(s, e.tid);
    if e.pair in s.rmap {
      SameStoreInv(s, Return(s, e.tid, e.pair, s.rmap[e.pair]), e.tid);
    } else {
      SameStoreInv(s, To(s, e.tid, Missed(e.pair)), e.tid);
    }
  }

  lemma AcquireInv(s: Shared, e: Event)
    requires Inv(s) && Possible(s, e) && e.Acquire?
    ensures Inv(Next(s, e)) && Extends(s, Next(s, e))
  {
    assert ThreadOk(s, e.tid);
    SameStoreInv(s, Next(s, e), e.tid);
  }

  lemma LookIdInv(s: Shared, e: Event)
    requires Inv(s) && Possible(s, e) && e.LookId?
    ensures Inv(Next(s, e)) && Extends(s, Next(s, e))
  {
    assert ThreadOk(s, e.tid);
    if e.id in s.cache {
      SameStoreInv(s, s.(resolved := s.resolved + {(e.id, s.cache[e.id])}), e.tid);
    } else {
      SameStoreInv(s, To(s, e.tid, Querying(e.id)), e.tid);
    }
  }

  lemma QueryInv(s: Shared, e: Event)
    requires Inv(s) && Possible(s, e) && e.Query?
    ensures Inv(Next(s, e)) && Extends(s, Next(s, e))
  {
    assert ThreadOk(s, e.tid);
    SameStoreInv(s, Next(s, e), e.tid);
  }

  lemma NotStored(s: Shared, pair: Pair)
    requires Inv(s) && pair !in s.rmap && (s.writer.Some? ==> !At(s, s.writer.value).Publishing?)
    ensures !PairStored(s, pair)
  {
    forall v | v in s.mapping
      ensures s.mapping[v] != pair
    {
      assert Settled(s, v);
    }
  }

  // The INSERT took: the new row is its thread's to publish.
  lemma InsertedInv(s: Shared, e: Event)
    requires Inv(s) && Possible(s, e) && Fresh(s, e) && e.Insert? && e.execOk
    ensures Inv(Next(s, e)) && Extends(s, Next(s, e))
  {
    var s', pair := Next(s, e), At(s, e.tid).pair;
    assert ThreadOk(s, e.tid);
    NotStored(s, pair);
    forall tid
      ensures ThreadOk(s', tid)
    {
      assert ThreadOk(s, tid);
      assert tid != e.tid ==> At(s', tid) == At(s, tid);
    }
    forall v | v in s'.mapping
      ensures Settled(s', v)
    {
      if v in s.mapping {
        assert Settled(s, v);
      }
    }
  }

  // The INSERT failed: the row it looks for instead is not there, and the call gives up.
  lemma InsertFailedInv(s: Shared, e: Event)
    requires Inv(s) && Possible(s, e) && e.Insert? && !e.execOk
    ensures Inv(Next(s, e)) && Extends(s, Next(s, e))
  {
    var s', pair := Next(s, e), At(s, e.tid).pair;
    assert ThreadOk(s, e.tid);
    NotStored(s, pair);
    assert s' == Return(s, e.tid, pair, pair.0).(writer := None, faulty := true);
    forall tid
      ensures ThreadOk(s', tid)
    {
      assert ThreadOk(s, tid);
    }
    forall v | v in s'.mapping
      ensures Settled(s', v)
    {
      assert Settled(s, v);
    }
  }

  lemma PublishThreads(s: Shared, e: Event)
    requires Inv(s) && Possible(s, e) && e.Publish?
    ensures forall tid :: ThreadOk(Next(s, e), tid)
    ensures ThreadOk(s, e.tid) && s.writer == Some(e.tid)
  {
    assert ThreadOk(s, e.tid);
    forall tid
      ensures ThreadOk(Next(s, e), tid)
    {
      assert ThreadOk(s, tid);
    }
  }

  lemma PublishSettles(s: Shared, e: Event)
    requires Inv(s) && Possible(s, e) && e.Publish?
    ensures forall v | v in Next(s, e).mapping :: Settled(Next(s, e), v)
  {
    var s' := Next(s, e);
    assert ThreadOk(s, e.tid);
    forall v | v in s'.mapping
      ensures Settled(s', v)
    {
      assert Settled(s, v);
    }
  }

  lemma PublishIndexes(s: Shared, e: Event)
    requires Inv(s) && Possible(s, e) && e.Publish?
    ensures IndexOk(Next(s, e)) && Extends(s, Next(s, e))
  {
    var s', t := Next(s, e), At(s, e.tid);
    assert ThreadOk(s, e.tid);
    forall p | p in s'.rmap
      ensures s'.rmap[p] in s'.cache && s'.cache[s'.rmap[p]] == p
    {
      assert p != t.pair ==> s.rmap[p] in s.cache && s.cache[s.rmap[p]] == p;
    }
  }

  lemma PublishInv(s: Shared, e: Event)
    requires Inv(s) && Possible(s, e) && e.Publish?
    ensures Inv(Next(s, e)) && Extends(s, Next(s, e))
  {
    PublishThreads(s, e);
    PublishSettles(s, e);
    PublishIndexes(s, e);
  }

  // The row a Resolve has read is in both indexes by the time it can fill them: filling changes nothing.
  lemma FillInv(s: Shared, e: Event)
    requires Inv(s) && Possible(s, e) && e.Fill?
    ensures Inv(Next(s, e)) && Extends(s, Next(s, e))
    ensures Next(s, e).cache == s.cache && Next(s, e).rmap == s.rmap
  {
    assert ThreadOk(s, e.tid);
    assert Settled(s, At(s, e.tid).id);
    SameStoreInv(s, Next(s, e), e.tid);
  }

  lemma NextInv(s: Shared, e: Event)
    requires Inv(s) && Possible(s, e) && Fresh(s, e)
    ensures Inv(Next(s, e)) && Extends(s, Next(s, e))
  {
    match e
    case Look(_, _) => LookInv(s, e);
    case Acquire(_) => AcquireInv(s, e);
    case Insert(_, _, execOk, _) => if execOk { InsertedInv(s, e); } else { InsertFailedInv(s, e); }
    case Publish(_) => PublishInv(s, e);
    case LookId(_, _) => LookIdInv(s, e);
    case Query(_, _) => QueryInv(s, e);
    case Fill(_) => FillInv(s, e);
  }

  lemma {:induction false} ExecutionInv(s: Shared, events: seq<Event>)
    requires Inv(s) && Execution(s, events)
    ensures Inv(After(s, events)) && Extends(s, After(s, events))
    decreases |events|
  {
    if events != [] {
      NextInv(s, events[0]);
      ExecutionInv(Next(s, events[0]), events[1..]);
    }
  }

  // ---------- every interleaving ----------

  // Whatever the interleaving: calls for one pair have all returned one ID, and calls for different
  // pairs different IDs. Once an INSERT has failed, the answers that are the original ID are set aside.
  lemma OneIdForOnePair(s0: Shared, events: seq<Event>, p: Pair, v: string, q: Pair, w: string)
    requires Started(s0) && Execution(s0, events)
    requires (p, v) in After(s0, events).returned && (q, w) in After(s0, events).returned
    requires After(s0, events).faulty ==> v != p.0 && w != q.0
    ensures p == q <==> v == w
  {
    StartedInv(s0);
    ExecutionInv(s0, events);
    var s := After(s0, events);
    assert (p, v) in s.returned && (q, w) in s.returned;
    assert s.cache[s.rmap[p]] == p && s.cache[s.rmap[q]] == q;
  }

  // A call that returned an ID under which the pair is kept: from then on, at every later moment, every
  // Resolve that can start answers the pair straight from the cache.
  lemma ResolvesEverAfter(s0: Shared, events: seq<Event>, more: seq<Event>, p: Pair, v: string, tid: Tid)
    requires Started(s0) && Execution(s0, events) && Execution(After(s0, events), more)
    requires (p, v) in After(s0, events).returned
    requires After(s0, events).faulty ==> v != p.0
    ensures var s := After(After(s0, events), more);
            Possible(s, LookId(tid, v)) ==>
              (v, p) in Next(s, LookId(tid, v)).resolved && At(Next(s, LookId(tid, v)), tid).Idle?
  {
    StartedInv(s0);
    ExecutionInv(s0, events);
    var mid := After(s0, events);
    ReturnedIsCached(mid, p, v);
    ExecutionInv(mid, more);
    CachedAnswers(After(mid, more), p, v, tid);
  }

  lemma ReturnedIsCached(s: Shared, p: Pair, v: string)
    requires Inv(s) && (p, v) in s.returned && (s.faulty ==> v != p.0)
    ensures v in s.cache && s.cache[v] == p
  {
    assert p in s.rmap && s.rmap[p] == v;
  }

  lemma CachedAnswers(s: Shared, p: Pair, v: string, tid: Tid)
    requires v in s.cache && s.cache[v] == p
    ensures Possible(s, LookId(tid, v)) ==>
              (v, p) in Next(s, LookId(tid, v)).resolved && At(Next(s, LookId(tid, v)), tid).Idle?
  {}

  // A Resolve never answers anything but the one pair of the ID, whichever way it took.
  lemma AnswersAgree(s0: Shared, events: seq<Event>, v: string, p: Pair, q: Pair)
    requires Started(s0) && Execution(s0, events)
    requires (v, p) in After(s0, events).resolved && (v, q) in After(s0, events).resolved
    ensures p == q
  {
    StartedInv(s0);
    ExecutionInv(s0, events);
    var s := After(s0, events);
    assert s.cache[v] == p && s.cache[v] == q;
  }

  // Whenever nobody holds the write lock, the store is as in a sequential run.
  lemma UnlockedAgrees(s0: Shared, events: seq<Event>)
    requires Started(s0) && Execution(s0, events) && After(s0, events).writer.None?
    ensures IndexesAgree(After(s0, events))
  {
    StartedInv(s0);
    ExecutionInv(s0, events);
    var s := After(s0, events);
    forall v | v in s.mapping
      ensures v in s.cache && s.cache[v] == s.mapping[v] && s.cache[v] in s.rmap && s.rmap[s.cache[v]] == v
    {
      assert Settled(s, v);
    }
    assert s.cache.Keys == s.mapping.Keys;
  }

  // The lock is held by at most one goroutine, and only between its second look and its publishing.
  lemma WriterAlone(s0: Shared, events: seq<Event>, a: Tid, b: Tid)
    requires Started(s0) && Execution(s0, events)
    requires var s := After(s0, events);
             (At(s, a).Inserting? || At(s, a).Publishing?) && (At(s, b).Inserting? || At(s, b).Publishing?)
    ensures a == b && After(s0, events).writer == Some(a)
  {
    StartedInv(s0);
    ExecutionInv(s0, events);
    assert ThreadOk(After(s0, events), a) && ThreadOk(After(s0, events), b);
  }

  // ---------- one goroutine by itself ----------

  // The shared state is that of a sequential store.
  ghost predicate Mirrors(s: Shared, t: State)
  {
    && s.cache == (map v | v in t.cache :: PairOf(t.cache[v]))
    && s.rmap == t.rmap
    && s.mapping == (map v | v in t.db.mapping :: (t.db.mapping[v].originalID, t.db.mapping[v].serverID))
  }

  // A call of GetOrCreate that nothing comes between.
  function GetOrCreateSteps(s: Shared, tid: Tid, pair: Pair, d: Draw): seq<Event>
  {
    [Look(tid, pair)] +
    if pair in s.rmap then []
      else [Acquire(tid), Insert(tid, d.id, d.first, d.second)] + if d.first then [Publish(tid)] else []
  }

  function ResolveSteps(s: Shared, tid: Tid, id: string, ok: bool): seq<Event>
  {
    [LookId(tid, id)] +
    if id in s.cache then [] else [Query(tid, ok)] + if ok && id in s.mapping then [Fill(tid)] else []
  }

  lemma OneStep(s: Shared, e: Event, rest: seq<Event>)
    requires Possible(s, e) && Fresh(s, e) && Execution(Next(s, e), rest)
    ensures Execution(s, [e] + rest) && After(s, [e] + rest) == After(Next(s, e), rest)
  {
    assert ([e] + rest)[1..] == rest;
  }

  lemma LastStep(s: Shared, e: Event)
    requires Possible(s, e) && Fresh(s, e)
    ensures Execution(s, [e]) && After(s, [e]) == Next(s, e)
  {
    OneStep(s, e, []);
    assert [e] + [] == [e];
  }

  lemma SelectMirrors(s: Shared, t: State, pair: Pair)
    requires Mirrors(s, t) && UniquePairs(t.db)
    ensures PairStored(s, pair) <==> HasPair(t.db, pair.0, pair.1)
    ensures Select(s, pair) == SelectVirtual(t.db, pair.0, pair.1)
  {
    if HasPair(t.db, pair.0, pair.1) {
      var v :| v in t.db.mapping && IsPair(t.db.mapping[v], pair.0, pair.1);
      assert s.mapping[v] == pair;
    }
    if PairStored(s, pair) {
      var v := Select(s, pair).value;
      assert IsPair(t.db.mapping[v], pair.0, pair.1);
      SelectUnique(t.db, v, pair.0, pair.1);
    }
  }

  // Where the steps of a call leave the shared state, thread and lock aside.
  ghost predicate Ends(s: Shared, events: seq<Event>, tid: Tid, s': Shared)
  {
    && Execution(s, events) && After(s, events) == s'
    && s'.writer.None? && At(s', tid).Idle?
  }

  lemma KnownAlone(s: Shared, tid: Tid, pair: Pair)
    requires s.writer.None? && At(s, tid).Idle? && pair in s.rmap
    ensures Ends(s, [Look(tid, pair)], tid, Return(s, tid, pair, s.rmap[pair]))
  {
    LastStep(s, Look(tid, pair));
  }

  // The first two steps of a call for a pair without an ID.
  function Locked(s: Shared, tid: Tid, pair: Pair): Shared
  {
    To(s, tid, Inserting(pair)).(writer := Some(tid))
  }

  lemma LockAlone(s: Shared, tid: Tid, pair: Pair, rest: seq<Event>)
    requires s.writer.None? && At(s, tid).Idle? && pair !in s.rmap && Execution(Locked(s, tid, pair), rest)
    ensures Execution(s, [Look(tid, pair), Acquire(tid)] + rest)
    ensures After(s, [Look(tid, pair), Acquire(tid)] + rest) == After(Locked(s, tid, pair), rest)
  {
    var e1, e2 := Look(tid, pair), Acquire(tid);
    var s1 := Next(s, e1);
    assert Next(s1, e2) == Locked(s, tid, pair) by {
      assert s1.threads[tid := Inserting(pair)] == s.threads[tid := Inserting(pair)];
    }
    OneStep(s1, e2, rest);
    OneStep(s, e1, [e2] + rest);
    assert [e1] + ([e2] + rest) == [e1, e2] + rest;
  }

  lemma FailAlone(s: Shared, tid: Tid, pair: Pair, d: Draw)
    requires At(s, tid) == Inserting(pair) && !d.first
    ensures Ends(s, [Insert(tid, d.id, false, d.second)], tid, Next(s, Insert(tid, d.id, false, d.second)))
  {
    LastStep(s, Insert(tid, d.id, false, d.second));
  }

  lemma InsertAlone(s: Shared, tid: Tid, pair: Pair, d: Draw)
    requires At(s, tid) == Inserting(pair) && d.first && d.id !in s.mapping && !PairStored(s, pair)
    ensures Ends(s, [Insert(tid, d.id, true, d.second), Publish(tid)], tid,
                 Return(s, tid, pair, d.id).(cache := s.cache[d.id := pair], rmap := s.rmap[pair := d.id],
                                             mapping := s.mapping[d.id := pair], writer := None))
  {
    var e1, e2 := Insert(tid, d.id, true, d.second), Publish(tid);
    var s1 := Next(s, e1);
    LastStep(s1, e2);
    OneStep(s, e1, [e2]);
    assert [e1] + [e2] == [e1, e2];
    assert s1.threads[tid := Idle] == s.threads[tid := Idle];
  }

  // The same in the store.
  lemma InsertMirrors(s: Shared, t: State, pair: Pair, itemType: string, d: Draw, s': Shared)
    requires Mirrors(s, t) && pair !in t.rmap && d.first && d.id !in t.db.mapping && !HasPair(t.db, pair.0, pair.1)
    requires s'.cache == s.cache[d.id := pair] && s'.rmap == s.rmap[pair := d.id] &&
             s'.mapping == s.mapping[d.id := pair]
    ensures Mirrors(s', GetOrCreate(t, pair.0, pair.1, itemType, d).0)
    ensures GetOrCreate(t, pair.0, pair.1, itemType, d).1 == d.id
  {}

  lemma FailMirrors(s: Shared, t: State, tid: Tid, pair: Pair, itemType: string, d: Draw)
    requires Mirrors(s, t) && UniquePairs(t.db) && At(s, tid) == Inserting(pair) && pair !in t.rmap && !d.first
    ensures var (t', v) := GetOrCreate(t, pair.0, pair.1, itemType, d);
            var s' := Next(s, Insert(tid, d.id, false, d.second));
            Mirrors(s', t') && s'.returned == s.returned + {(pair, v)}
  {
    SelectMirrors(s, t, pair);
  }

  // What a call does to the shared state and returns is what the sequential operation does to the store.
  ghost predicate SameCall(s: Shared, events: seq<Event>, tid: Tid, pair: Pair, t': State, v: string)
  {
    Execution(s, events) &&
    var s' := After(s, events);
    Mirrors(s', t') && s'.writer.None? && At(s', tid).Idle? && s'.returned == s.returned + {(pair, v)}
  }

  // Undisturbed, the steps of GetOrCreate are the sequential operation on a coherent store.
  lemma GetOrCreateAlone(s: Shared, t: State, tid: Tid, pair: Pair, itemType: string, d: Draw)
    requires Mirrors(s, t) && Coherent(t) && s.writer.None? && At(s, tid).Idle?
    requires pair !in s.rmap && d.first ==> d.id !in s.mapping
    ensures var (t', v) := GetOrCreate(t, pair.0, pair.1, itemType, d);
            SameCall(s, GetOrCreateSteps(s, tid, pair, d), tid, pair, t', v)
  {
    if pair in s.rmap {
      KnownAlone(s, tid, pair);
      assert GetOrCreateSteps(s, tid, pair, d) == [Look(tid, pair)];
    } else {
      NewAlone(s, t, tid, pair, itemType, d);
    }
  }

  lemma NewAlone(s: Shared, t: State, tid: Tid, pair: Pair, itemType: string, d: Draw)
    requires Mirrors(s, t) && Coherent(t) && s.writer.None? && At(s, tid).Idle?
    requires pair !in s.rmap && (d.first ==> d.id !in s.mapping)
    ensures var (t', v) := GetOrCreate(t, pair.0, pair.1, itemType, d);
            SameCall(s, GetOrCreateSteps(s, tid, pair, d), tid, pair, t', v)
  {
    var locked := Locked(s, tid, pair);
    SelectMirrors(locked, t, pair);
    PairIsIndexed(t, pair.0, pair.1);
    if d.first {
      var rest := [Insert(tid, d.id, true, d.second), Publish(tid)];
      InsertAlone(locked, tid, pair, d);
      LockAlone(s, tid, pair, rest);
      InsertMirrors(s, t, pair, itemType, d, After(locked, rest));
      assert GetOrCreateSteps(s, tid, pair, d) == [Look(tid, pair), Acquire(tid)] + rest;
    } else {
      var rest := [Insert(tid, d.id, false, d.second)];
      FailAlone(locked, tid, pair, d);
      LockAlone(s, tid, pair, rest);
      FailMirrors(locked, t, tid, pair, itemType, d);
      assert GetOrCreateSteps(s, tid, pair, d) == [Look(tid, pair), Acquire(tid)] + rest;
    }
  }

  lemma FillAlone(s: Shared, tid: Tid, id: string)
    requires s.writer.None? && At(s, tid).Idle? && id !in s.cache && id in s.mapping
    ensures Ends(s, [LookId(tid, id), Query(tid, true), Fill(tid)], tid,
                 To(s, tid, Idle).(cache := s.cache[id := s.mapping[id]], rmap := s.rmap[s.mapping[id] := id],
                                   resolved := s.resolved + {(id, s.mapping[id])}))
  {
    var e1, e2, e3 := LookId(tid, id), Query(tid, true), Fill(tid);
    var s1 := Next(s, e1);
    var s2 := Next(s1, e2);
    LastStep(s2, e3);
    OneStep(s1, e2, [e3]);
    OneStep(s, e1, [e2] + [e3]);
    assert [e1] + ([e2] + [e3]) == [e1, e2, e3];
    assert s2.threads[tid := Idle] == s.threads[tid := Idle];
  }

  lemma NoRowAlone(s: Shared, tid: Tid, id: string, ok: bool)
    requires s.writer.None? && At(s, tid).Idle? && id !in s.cache && !(ok && id in s.mapping)
    ensures Ends(s, [LookId(tid, id), Query(tid, ok)], tid, To(s, tid, Idle))
  {
    var e1, e2 := LookId(tid, id), Query(tid, ok);
    var s1 := Next(s, e1);
    LastStep(s1, e2);
    OneStep(s, e1, [e2]);
    assert [e1] + [e2] == [e1, e2];
    assert s1.threads[tid := Idle] == s.threads[tid := Idle];
  }

  lemma FillMirrors(s: Shared, t: State, id: string, s': Shared)
    requires Mirrors(s, t) && id !in t.cache && id in t.db.mapping
    requires s'.cache == s.cache[id := s.mapping[id]] && s'.rmap == s.rmap[s.mapping[id] := id] &&
             s'.mapping == s.mapping
    ensures Mirrors(s', Resolve(t, id, true).0) && Resolve(t, id, true).1 == Some(s.mapping[id])
  {}

  lemma ResolveAlone(s: Shared, t: State, tid: Tid, id: string, ok: bool)
    requires Mirrors(s, t) && s.writer.None? && At(s, tid).Idle?
    ensures var events, (t', found) := ResolveSteps(s, tid, id, ok), Resolve(t, id, ok);
            && Execution(s, events)
            && var s' := After(s, events);
               Mirrors(s', t') && s'.writer.None? && At(s', tid).Idle?
               && s'.resolved == s.resolved + (if found.Some? then {(id, found.value)} else {})
  {
    if id in s.cache {
      LastStep(s, LookId(tid, id));
      assert ResolveSteps(s, tid, id, ok) == [LookId(tid, id)];
    } else if ok && id in s.mapping {
      FillAlone(s, tid, id);
      FillMirrors(s, t, id, After(s, [LookId(tid, id), Query(tid, true), Fill(tid)]));
      assert ResolveSteps(s, tid, id, ok) == [LookId(tid, id), Query(tid, true), Fill(tid)];
    } else {
      NoRowAlone(s, tid, id, ok);
      assert ResolveSteps(s, tid, id, ok) == [LookId(tid, id), Query(tid, ok)];
    }
  }
}
