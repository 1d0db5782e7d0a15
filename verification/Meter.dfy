// The traffic meter of internal/traffic: Add, flush and TotalStats as interleaved atomic steps of any
// number of goroutines; the source starts one flushing goroutine.
module Meter {
  import opened Wrappers

  type Tid = nat

  datatype Direction = In | Out

  // One upstream and direction.
  type Key = (int, Direction)

  datatype Row = Row(upstreamID: int, bytesIn: int, bytesOut: int)

  // A 64-bit counter wraps around.
  const TWO63: int := 0x8000_0000_0000_0000
  const TWO64: int := 0x1_0000_0000_0000_0000

  function Wrap(n: int): int
  {
    (n + TWO63) % TWO64 - TWO63
  }

  datatype Thread =
    | Idle
    | Creating(id: int, bytesIn: int, bytesOut: int)     // Add: no counter found
    | AddingIn(id: int, bytesIn: int, bytesOut: int)     // Add: has the counter
    | AddingOut(id: int, bytesOut: int)
    | Queried(snapshot: seq<Row>)                        // TotalStats: has the sums of these rows
    | Reading(snapshot: seq<Row>, todo: set<Key>, result: map<Key, int>)   // TotalStats: read-locked
    | Done(snapshot: seq<Row>, result: map<Key, int>)    // TotalStats: about to return

  datatype Flush =
    | Resting
    | Ranging(todo: set<int>)                            // read-locked, between two upstreams
    | SwappedIn(todo: set<int>, id: int, bytesIn: int)
    | SwappedOut(todo: set<int>, id: int, bytesIn: int, bytesOut: int)

  // added and lost are what the statement is about: bytes ever added (those behind the rows found at
  // start included) and bytes whose INSERT failed.
  datatype State = State(
    counters: set<int>,
    live: map<Key, int>,
    rows: seq<Row>,
    flush: Flush,
    threads: map<Tid, Thread>,
    added: map<Key, int>,
    lost: map<Key, int>)

  datatype Event =
    | Look(tid: Tid, id: int, bytesIn: int, bytesOut: int)   // Add: read-locked lookup
    | Create(tid: Tid)                                       // Add: write-locked creation
    | AddIn(tid: Tid)
    | AddOut(tid: Tid)
    | FlushStart
    | SwapIn(id: int)
    | SwapOut
    | InsertRow(ok: bool)
    | FlushEnd
    | Query(tid: Tid)                                        // TotalStats: the SUM query
    | LockForReading(tid: Tid)
    | Load(tid: Tid, key: Key)                               // TotalStats: one atomic load
    | Unlock(tid: Tid)
    | Leave(tid: Tid)                                        // TotalStats returns

  function Get(m: map<Key, int>, k: Key): int
  {
    if k in m then m[k] else 0
  }

  function Bump(m: map<Key, int>, k: Key, n: int): map<Key, int>
  {
    m[k := Get(m, k) + n]
  }

  function Bytes(row: Row, k: Key): int
  {
    if row.upstreamID != k.0 then 0 else if k.1.In? then row.bytesIn else row.bytesOut
  }

  // SUM(...) GROUP BY upstream_id
  function Sum(rows: seq<Row>, k: Key): int
  {
    if rows == [] then 0 else Sum(rows[..|rows| - 1], k) + Bytes(rows[|rows| - 1], k)
  }

  // Swapped out and not yet inserted.
  function Held(f: Flush, k: Key): int
  {
    match f
    case SwappedIn(_, id, bytesIn) => if k == (id, In) then bytesIn else 0
    case SwappedOut(_, id, bytesIn, bytesOut) =>
      if k == (id, In) then bytesIn else if k == (id, Out) then bytesOut else 0
    case _ => 0
  }

  function At(s: State, tid: Tid): Thread
  {
    if tid in s.threads then s.threads[tid] else Idle
  }

  function To(s: State, tid: Tid, thread: Thread): State
  {
    s.(threads := s.threads[tid := thread])
  }

  function Count(s: State, k: Key, n: int): State
  {
    if n > 0 then s.(live := s.live[k := Wrap(Get(s.live, k) + n)], added := Bump(s.added, k, n)) else s
  }

  // The write lock needs that nobody reads.
  predicate NoReader(s: State)
  {
    s.flush.Resting? && forall tid | tid in s.threads :: !s.threads[tid].Reading?
  }

  predicate Possible(s: State, e: Event)
  {
    match e
    case Look(tid, _, _, _) => At(s, tid).Idle?
    case Create(tid) => At(s, tid).Creating? && NoReader(s)
    case AddIn(tid) => At(s, tid).AddingIn?
    case AddOut(tid) => At(s, tid).AddingOut?
    case FlushStart => s.flush.Resting?
    case SwapIn(id) => s.flush.Ranging? && id in s.flush.todo
    case SwapOut => s.flush.SwappedIn?
    case InsertRow(_) => s.flush.SwappedOut?
    case FlushEnd => s.flush == Ranging({})
    case Query(tid) => At(s, tid).Idle?
    case LockForReading(tid) => At(s, tid).Queried?
    case Load(tid, key) => At(s, tid).Reading? && key in At(s, tid).todo
    case Unlock(tid) => At(s, tid).Reading? && At(s, tid).todo == {}
    case Leave(tid) => At(s, tid).Done?
  }

  function Next(s: State, e: Event): State
    requires Possible(s, e)
  {
    match e
    case Look(tid, id, bytesIn, bytesOut) =>
      To(s, tid, if id in s.counters then AddingIn(id, bytesIn, bytesOut) else Creating(id, bytesIn, bytesOut))
    case Create(tid) =>
      var t := At(s, tid);
      var s' := if t.id in s.counters then s
                else s.(counters := s.counters + {t.id}, live := s.live[(t.id, In) := 0][(t.id, Out) := 0]);
      To(s', tid, AddingIn(t.id, t.bytesIn, t.bytesOut))
    case AddIn(tid) =>
      var t := At(s, tid);
      To(Count(s, (t.id, In), t.bytesIn), tid, AddingOut(t.id, t.bytesOut))
    case AddOut(tid) =>
      var t := At(s, tid);
      To(Count(s, (t.id, Out), t.bytesOut), tid, Idle)
    case FlushStart => s.(flush := Ranging(s.counters))
    case SwapIn(id) =>
      s.(flush := SwappedIn(s.flush.todo - {id}, id, Get(s.live, (id, In))), live := s.live[(id, In) := 0])
    case SwapOut =>
      var f := s.flush;
      s.(flush := SwappedOut(f.todo, f.id, f.bytesIn, Get(s.live, (f.id, Out))), live := s.live[(f.id, Out) := 0])
    case InsertRow(ok) =>
      var f := s.flush;
      var s' := s.(flush := Ranging(f.todo));
      if f.bytesIn == 0 && f.bytesOut == 0 then s'
      else if ok then s'.(rows := s.rows + [Row(f.id, f.bytesIn, f.bytesOut)])
      else s'.(lost := Bump(Bump(s.lost, (f.id, In), f.bytesIn), (f.id, Out), f.bytesOut))
    case FlushEnd => s.(flush := Resting)
    case Query(tid) => To(s, tid, Queried(s.rows))
    case LockForReading(tid) =>
      var todo := (set id | id in s.counters :: (id, In)) + (set id | id in s.counters :: (id, Out));
      To(s, tid, Reading(At(s, tid).snapshot, todo, map[]))
    case Load(tid, key) =>
      var t := At(s, tid);
      To(s, tid, Reading(t.snapshot, t.todo - {key}, t.result[key := Sum(t.snapshot, key) + Get(s.live, key)]))
    case Unlock(tid) => To(s, tid, Done(At(s, tid).snapshot, At(s, tid).result))
    case Leave(tid) => To(s, tid, Idle)
  }

  ghost predicate Execution(s: State, events: seq<Event>)
    decreases |events|
  {
    events == [] || (Possible(s, events[0]) && Execution(Next(s, events[0]), events[1..]))
  }

  ghost function After(s: State, events: seq<Event>): State
    requires Execution(s, events)
    decreases |events|
  {
    if events == [] then s else After(Next(s, events[0]), events[1..])
  }

  ghost predicate Started(s: State)
  {
    && s.counters == {} && s.live == map[] && s.flush.Resting? && s.threads == map[] && s.lost == map[]
    && (forall i, k | 0 <= i < |s.rows| :: Bytes(s.rows[i], k) >= 0)
    && (forall k :: Get(s.added, k) == Sum(s.rows, k))
  }

  // ---------- what every step keeps ----------

  // The counter of this key cannot have wrapped around.
  predicate Small(s: State, k: Key)
  {
    Get(s.added, k) < TWO63
  }

  // Every byte added is in the table, in the counter, in the flush's hands, or lost with a failed INSERT.
  predicate Balanced(s: State, k: Key)
  {
    && Get(s.added, k) == Sum(s.rows, k) + Get(s.live, k) + Held(s.flush, k) + Get(s.lost, k)
    && Sum(s.rows, k) >= 0 && Get(s.live, k) >= 0 && Held(s.flush, k) >= 0 && Get(s.lost, k) >= 0
  }

  // What a TotalStats call knows of a key so far is not more than was added.
  predicate ThreadBelow(s: State, t: Thread, k: Key)
  {
    match t
    case Queried(snapshot) => Sum(snapshot, k) <= Sum(s.rows, k)
    case Reading(snapshot, _, result) =>
      Sum(snapshot, k) <= Sum(s.rows, k) && (k in result ==> result[k] <= Get(s.added, k))
    case Done(snapshot, result) =>
      Sum(snapshot, k) <= Sum(s.rows, k) && (k in result ==> result[k] <= Get(s.added, k))
    case _ => true
  }

  ghost predicate KeyInv(s: State, k: Key)
  {
    Small(s, k) ==> Balanced(s, k) && forall tid | tid in s.threads :: ThreadBelow(s, s.threads[tid], k)
  }

  lemma SumOne(rows: seq<Row>, row: Row, k: Key)
    ensures Sum(rows + [row], k) == Sum(rows, k) + Bytes(row, k)
  {
    assert (rows + [row])[..|rows|] == rows;
  }

  lemma {:induction false} SumNonNegative(rows: seq<Row>, k: Key)
    requires forall i | 0 <= i < |rows| :: Bytes(rows[i], k) >= 0
    ensures Sum(rows, k) >= 0
  {
    if rows != [] {
      SumNonNegative(rows[..|rows| - 1], k);
    }
  }

  lemma AddedGrows(s: State, e: Event, k: Key)
    requires Possible(s, e)
    ensures Get(Next(s, e).added, k) >= Get(s.added, k)
  {}

  lemma WrapSmall(n: int)
    requires 0 <= n < TWO63
    ensures Wrap(n) == n
  {}

  lemma CountBalanced(s: State, id: Key, n: int, k: Key)
    requires Balanced(s, k) && Small(Count(s, id, n), k)
    ensures Balanced(Count(s, id, n), k)
  {
    if n > 0 && id == k {
      WrapSmall(Get(s.live, k) + n);
    }
  }

  lemma SwapBalanced(s: State, e: Event, k: Key)
    requires Possible(s, e) && Balanced(s, k) && (e.SwapIn? || e.SwapOut?)
    ensures Balanced(Next(s, e), k)
  {}

  lemma InsertBalanced(s: State, ok: bool, k: Key)
    requires s.flush.SwappedOut? && Balanced(s, k)
    ensures Balanced(Next(s, InsertRow(ok)), k)
    ensures Sum(Next(s, InsertRow(ok)).rows, k) >= Sum(s.rows, k)
  {
    var f, s' := s.flush, Next(s, InsertRow(ok));
    var row := Row(f.id, f.bytesIn, f.bytesOut);
    assert Bytes(row, k) == Held(f, k);
    if f.bytesIn == 0 && f.bytesOut == 0 {
    } else if ok {
      SumOne(s.rows, row, k);
    } else {
      BumpBoth(s.lost, f, k);
    }
  }

  lemma BumpBoth(m: map<Key, int>, f: Flush, k: Key)
    requires f.SwappedOut?
    ensures Get(Bump(Bump(m, (f.id, In), f.bytesIn), (f.id, Out), f.bytesOut), k) == Get(m, k) + Held(f, k)
  {}

  lemma BalancedNext(s: State, e: Event, k: Key)
    requires Possible(s, e) && Small(Next(s, e), k) && Balanced(s, k) && Created(s)
    ensures Balanced(Next(s, e), k)
    ensures Sum(Next(s, e).rows, k) >= Sum(s.rows, k)
  {
    match e
    case AddIn(tid) => CountBalanced(s, (At(s, tid).id, In), At(s, tid).bytesIn, k);
    case AddOut(tid) => CountBalanced(s, (At(s, tid).id, Out), At(s, tid).bytesOut, k);
    case SwapIn(_) => SwapBalanced(s, e, k);
    case SwapOut => SwapBalanced(s, e, k);
    case InsertRow(ok) => InsertBalanced(s, ok, k);
    case _ =>
  }

  // Whoever works on a counter has found or made it, and there is nothing in a counter not made.
  ghost predicate Created(s: State)
  {
    && (forall k | k in s.live :: k.0 in s.counters)
    && (forall tid | tid in s.threads :: HasCounter(s.threads[tid], s.counters))
    && (s.flush.Ranging? ==> s.flush.todo <= s.counters)
    && (s.flush.SwappedIn? || s.flush.SwappedOut? ==> s.flush.todo <= s.counters && s.flush.id in s.counters)
  }

  predicate HasCounter(t: Thread, counters: set<int>)
  {
    t.AddingIn? || t.AddingOut? ==> t.id in counters
  }

  lemma CreatedNext(s: State, e: Event)
    requires Created(s) && Possible(s, e)
    ensures Created(Next(s, e))
  {
    var s' := Next(s, e);
    assert s'.counters >= s.counters;
    forall tid | tid in s'.threads
      ensures HasCounter(s'.threads[tid], s'.counters)
    {
      assert tid in s.threads ==> HasCounter(s.threads[tid], s.counters);
    }
  }

  lemma ThreadBelowNext(s: State, e: Event, k: Key, tid: Tid)
    requires Possible(s, e) && KeyInv(s, k) && Small(s, k) && Balanced(Next(s, e), k)
    requires Sum(Next(s, e).rows, k) >= Sum(s.rows, k) && Get(Next(s, e).added, k) >= Get(s.added, k)
    requires tid in Next(s, e).threads
    ensures ThreadBelow(Next(s, e), Next(s, e).threads[tid], k)
  {
    assert tid in s.threads ==> ThreadBelow(s, s.threads[tid], k);
  }

  lemma KeyInvNext(s: State, e: Event, k: Key)
    requires KeyInv(s, k) && Created(s) && Possible(s, e)
    ensures KeyInv(Next(s, e), k)
  {
    AddedGrows(s, e, k);
    if Small(Next(s, e), k) {
      BalancedNext(s, e, k);
      forall tid | tid in Next(s, e).threads
        ensures ThreadBelow(Next(s, e), Next(s, e).threads[tid], k)
      {
        ThreadBelowNext(s, e, k, tid);
      }
    }
  }

  lemma {:induction false} KeyInvAfter(s: State, events: seq<Event>, k: Key)
    requires KeyInv(s, k) && Created(s) && Execution(s, events)
    ensures KeyInv(After(s, events), k) && Get(After(s, events).added, k) >= Get(s.added, k)
    decreases |events|
  {
    if events != [] {
      KeyInvNext(s, events[0], k);
      CreatedNext(s, events[0]);
      AddedGrows(s, events[0], k);
      KeyInvAfter(Next(s, events[0]), events[1..], k);
    }
  }

  lemma StartedInv(s: State, k: Key)
    requires Started(s)
    ensures KeyInv(s, k) && Created(s)
  {
    SumNonNegative(s.rows, k);
  }

  // ---------- every interleaving ----------

  // Conservation: at every moment, for every upstream and direction that has seen less than 2^63 bytes.
  lemma NoByteUnaccounted(s0: State, events: seq<Event>, k: Key)
    requires Started(s0) && Execution(s0, events) && Small(After(s0, events), k)
    ensures Balanced(After(s0, events), k)
  {
    StartedInv(s0, k);
    KeyInvAfter(s0, events, k);
  }

  // What a TotalStats call that is about to return says of a key.
  function Reported(t: Thread, k: Key): int
    requires t.Done?
  {
    if k in t.result then t.result[k] else Sum(t.snapshot, k)
  }

  // It never reports more than was added by the time it returns.
  lemma ReportBelowAdded(s0: State, events: seq<Event>, tid: Tid, k: Key)
    requires Started(s0) && Execution(s0, events) && Small(After(s0, events), k)
    requires At(After(s0, events), tid).Done?
    ensures Reported(At(After(s0, events), tid), k) <= Get(After(s0, events).added, k)
  {
    StartedInv(s0, k);
    KeyInvAfter(s0, events, k);
    var s := After(s0, events);
    assert ThreadBelow(s, s.threads[tid], k);
  }

  // The number a call loads for a key: what was added, less what the flush has in hand, what it has
  // inserted since the call's query, and what is lost. It is the exact number if and only if there is
  // none of these; with no flush since the query and no failed INSERT there is none.
  lemma LoadedExactly(s0: State, events: seq<Event>, tid: Tid, k: Key)
    requires Started(s0) && Execution(s0, events) && Small(After(s0, events), k)
    requires Possible(After(s0, events), Load(tid, k))
    ensures var s := After(s0, events);
            var loaded := At(Next(s, Load(tid, k)), tid).result[k];
            var sinceQuery := Sum(s.rows, k) - Sum(At(s, tid).snapshot, k);
            && loaded == Get(s.added, k) - Held(s.flush, k) - sinceQuery - Get(s.lost, k)
            && (loaded == Get(s.added, k) <==> Held(s.flush, k) == 0 && sinceQuery == 0 && Get(s.lost, k) == 0)
  {
    StartedInv(s0, k);
    KeyInvAfter(s0, events, k);
    var s := After(s0, events);
    assert ThreadBelow(s, s.threads[tid], k);
  }

  predicate FlushStep(e: Event)
  {
    e.FlushStart? || e.SwapIn? || e.SwapOut? || e.InsertRow? || e.FlushEnd?
  }

  predicate HasQueried(t: Thread, rows: seq<Row>)
  {
    (t.Queried? || t.Reading? || t.Done?) && t.snapshot == rows
  }

  lemma {:induction false} QuietKeeps(s: State, events: seq<Event>, tid: Tid)
    requires Execution(s, events) && s.flush.Resting? && HasQueried(At(s, tid), s.rows)
    requires forall e | e in events :: !FlushStep(e) && e != Leave(tid)
    ensures var s' := After(s, events);
            s'.rows == s.rows && s'.flush == s.flush && s'.lost == s.lost && HasQueried(At(s', tid), s'.rows)
    decreases |events|
  {
    if events != [] {
      var e := events[0];
      assert e in events && forall x | x in events[1..] :: x in events;
      assert HasQueried(At(Next(s, e), tid), Next(s, e).rows);
      QuietKeeps(Next(s, e), events[1..], tid);
    }
  }

  lemma {:induction false} AfterConcat(s: State, a: seq<Event>, b: seq<Event>)
    requires Execution(s, a) && Execution(After(s, a), b)
    ensures Execution(s, a + b) && After(s, a + b) == After(After(s, a), b)
    decreases |a|
  {
    if a == [] {
      assert a + b == b;
    } else {
      assert (a + b)[1..] == a[1..] + b;
      AfterConcat(Next(s, a[0]), a[1..], b);
    }
  }

  // If no flush step comes between a call's query and its loads, no flush was under way, and no INSERT
  // has failed for the key, then each load gives exactly what had been added by then, while Adds go on.
  lemma QuietLoadExact(s0: State, before: seq<Event>, meanwhile: seq<Event>, tid: Tid, k: Key)
    requires Started(s0) && Execution(s0, before)
    requires var s := After(s0, before);
             && s.flush.Resting? && Get(s.lost, k) == 0 && Possible(s, Query(tid))
             && Execution(Next(s, Query(tid)), meanwhile)
             && Small(After(Next(s, Query(tid)), meanwhile), k)
             && Possible(After(Next(s, Query(tid)), meanwhile), Load(tid, k))
    requires forall e | e in meanwhile :: !FlushStep(e) && e != Leave(tid)
    ensures var s := After(Next(After(s0, before), Query(tid)), meanwhile);
            At(Next(s, Load(tid, k)), tid).result[k] == Get(s.added, k)
  {
    var q := After(s0, before);
    var events := before + [Query(tid)];
    assert After(q, [Query(tid)]) == Next(q, Query(tid)) by {
      assert [Query(tid)][1..] == [];
    }
    AfterConcat(s0, before, [Query(tid)]);
    QuietKeeps(Next(q, Query(tid)), meanwhile, tid);
    AfterConcat(s0, events, meanwhile);
    LoadedExactly(s0, events + meanwhile, tid, k);
  }

  // ---------- the report as a whole ----------

  // What a call knows of a key lies between two amounts, once it has it.
  predicate ReportWithin(t: Thread, low: int, high: int, k: Key)
  {
    match t
    case Reading(snapshot, todo, result) =>
      && (k in result ==> low <= result[k] <= high)
      && (k !in result && k !in todo ==> low <= Sum(snapshot, k) <= high)
    case Done(snapshot, result) =>
      && (k in result ==> low <= result[k] <= high)
      && (k !in result ==> low <= Sum(snapshot, k) <= high)
    case _ => true
  }

  // A call that has made its query, with no flush under way since and nothing lost.
  ghost predicate Quiet(s: State, tid: Tid, low: int, k: Key)
  {
    && s.flush.Resting? && Get(s.lost, k) == 0 && HasQueried(At(s, tid), s.rows)
    && low <= Get(s.added, k) && ReportWithin(At(s, tid), low, Get(s.added, k), k)
  }

  lemma QuietNext(s: State, e: Event, tid: Tid, low: int, k: Key)
    requires Quiet(s, tid, low, k) && Balanced(s, k) && Created(s)
    requires Possible(s, e) && !FlushStep(e) && e != Leave(tid)
    ensures Quiet(Next(s, e), tid, low, k)
  {
    AddedGrows(s, e, k);
    var s' := Next(s, e);
    if e == LockForReading(tid) {
      CountersToRead(s, tid, k);
    } else if e == Load(tid, k) {
      assert At(s', tid).result[k] == Sum(s.rows, k) + Get(s.live, k) == Get(s.added, k);
    }
  }

  // A key that is not to be read has no counter: all that was added is in the table.
  lemma CountersToRead(s: State, tid: Tid, k: Key)
    requires Created(s) && Balanced(s, k) && s.flush.Resting? && Get(s.lost, k) == 0
    requires Possible(s, LockForReading(tid))
    ensures k !in At(Next(s, LockForReading(tid)), tid).todo ==> Sum(s.rows, k) == Get(s.added, k)
  {
    var (id, direction) := k;
    if id in s.counters {
      match direction
      case In => assert k == (id, In);
      case Out => assert k == (id, Out);
    }
  }

  lemma {:induction false} QuietAfter(s: State, events: seq<Event>, tid: Tid, low: int, k: Key)
    requires KeyInv(s, k) && Created(s) && Execution(s, events) && Small(After(s, events), k)
    requires Quiet(s, tid, low, k) && forall e | e in events :: !FlushStep(e) && e != Leave(tid)
    ensures Quiet(After(s, events), tid, low, k)
    decreases |events|
  {
    KeyInvAfter(s, events, k);
    if events != [] {
      var e := events[0];
      assert e in events && forall x | x in events[1..] :: x in events;
      QuietNext(s, e, tid, low, k);
      KeyInvNext(s, e, k);
      CreatedNext(s, e);
      QuietAfter(Next(s, e), events[1..], tid, low, k);
    }
  }

  // With no flush from its query to its return, and nothing lost of a key, a TotalStats call reports of it,
  // counter or not, no less than was added when it asked and no more than when it returns.
  lemma ReportBetween(s0: State, before: seq<Event>, meanwhile: seq<Event>, tid: Tid, k: Key)
    requires Started(s0) && Execution(s0, before)
    requires var q := After(s0, before);
             && q.flush.Resting? && Get(q.lost, k) == 0 && Possible(q, Query(tid))
             && Execution(Next(q, Query(tid)), meanwhile)
             && Small(After(Next(q, Query(tid)), meanwhile), k)
             && At(After(Next(q, Query(tid)), meanwhile), tid).Done?
    requires forall e | e in meanwhile :: !FlushStep(e) && e != Leave(tid)
    ensures var q := After(s0, before);
            var s := After(Next(q, Query(tid)), meanwhile);
            Get(q.added, k) <= Reported(At(s, tid), k) <= Get(s.added, k)
  {
    var q := After(s0, before);
    StartedInv(s0, k);
    KeyInvAfter(s0, before, k);
    CreatedAfter(s0, before);
    KeyInvNext(q, Query(tid), k);
    CreatedNext(q, Query(tid));
    QuietAfter(Next(q, Query(tid)), meanwhile, tid, Get(q.added, k), k);
  }

  lemma {:induction false} CreatedAfter(s: State, events: seq<Event>)
    requires Created(s) && Execution(s, events)
    ensures Created(After(s, events))
    decreases |events|
  {
    if events != [] {
      CreatedNext(s, events[0]);
      CreatedAfter(Next(s, events[0]), events[1..]);
    }
  }
}
