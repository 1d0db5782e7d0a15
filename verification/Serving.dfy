// One store at work, from its construction on: what a client is shown can be undone after other requests
// have been answered, and what merging has registered is there.
module Serving {
  import opened Wrappers
  import opened JsonTree
  import Hex
  import opened IdMap
  import opened IdStore
  import opened JsonIds
  import opened Dedup

  // ---------- a random source that repeats nothing for long ----------

  const DRAWS: nat := 0x1_0000_0000

  function Byte(n: nat): Hex.byte
  {
    (n % 0x100) as Hex.byte
  }

  function Counting(i: nat): Entropy
  {
    var j := i / 0x100;
    var k := j / 0x100;
    [0, 0, 0, 0, 0, 0, 0, 0, 0, 0, 0, 0, Byte(k / 0x100), Byte(k), Byte(j), Byte(i)]
  }

  lemma SameByte(m: nat, n: nat)
    requires Byte(m) == Byte(n) && m / 0x100 == n / 0x100
    ensures m == n
  {}

  lemma SameCount(i: nat, j: nat)
    requires i < DRAWS && j < DRAWS && Counting(i)[12..] == Counting(j)[12..]
    ensures i == j
  {
    var a, b := Counting(i)[12..], Counting(j)[12..];
    assert a[0] == b[0] && a[1] == b[1] && a[2] == b[2] && a[3] == b[3];
    var k, l := i / 0x100 / 0x100, j / 0x100 / 0x100;
    SmallByte(k / 0x100);
    SmallByte(l / 0x100);
    SameByte(k, l);
    SameByte(i / 0x100, j / 0x100);
    SameByte(i, j);
  }

  lemma SmallByte(n: nat)
    requires n < 0x100
    ensures Byte(n) as nat == n
  {}

  lemma CountingRepeatsNothing(i: nat, j: nat)
    requires i < DRAWS && j < DRAWS && GenerateVirtualID(Counting(i)) == GenerateVirtualID(Counting(j))
    ensures i == j
  {
    GeneratedEqual(Counting(i), Counting(j));
    assert Stamp(Counting(i))[12..] == Counting(i)[12..] && Stamp(Counting(j))[12..] == Counting(j)[12..];
    SameCount(i, j);
  }

  // ---------- the run ----------

  // A body is virtualised for a client, and then a request is answered that merges items.
  method ShowAndMerge(setup: Setup, ids: Store, proxyUserID: string, body: Json, serverID: int, items: seq<EmbyItem>)
      returns (shown: Json, ghost s: State)
    requires ids.Valid()
    modifies ids.Repr
    ensures ids.Valid() && ids.Repr >= old(ids.Repr) && fresh(ids.Repr - old(ids.Repr))
    ensures ids.clock >= old(ids.clock) && ids.drawn >= old(ids.drawn)
    ensures Working(ids, old(ids.clock)) ==>
              && Coherent(s) && Grows(s, ids.Model())
              && Rewritten(Proxy, Rel(s, Virtualize(serverID, {"", proxyUserID}), false), body, shown)
    ensures Working(ids, old(ids.clock)) && DistinctPrimaries(setup, items) ==> AllRegistered(ids.Model(), setup, items)
  {
    shown := VirtualizeJSON(ids, proxyUserID, body, serverID);
    s := ids.Model();
    var merged := Merge(setup, ids, items);
  }

  // After that the body is undone. If the source has repeated nothing and no statement failed, it comes
  // back as it was unless a kept text is a virtual ID by then, and the merged groups are registered.
  method ServeTwice(setup: Setup, ids: Store, proxyUserID: string, body: Json, serverID: int, items: seq<EmbyItem>)
      returns (back: Json)
    requires ids.Valid()
    modifies ids.Repr
    ensures ids.Valid() && ids.Repr >= old(ids.Repr) && fresh(ids.Repr - old(ids.Repr))
    ensures ids.clock >= old(ids.clock) && ids.drawn >= old(ids.drawn)
    ensures Working(ids, old(ids.clock)) && "" !in ids.Model().cache && proxyUserID !in ids.Model().cache ==>
            back == body
    ensures Working(ids, old(ids.clock)) && DistinctPrimaries(setup, items) ==> AllRegistered(ids.Model(), setup, items)
  {
    ghost var since, s := ids.clock, ids.Model();
    var shown;
    shown, s := ShowAndMerge(setup, ids, proxyUserID, body, serverID, items);
    ghost var t, c := ids.Model(), ids.clock;
    back := DevirtualizeJSON(ids, shown, serverID);
    if Working(ids, since) {
      assert ids.Model() == t;
      CameBack(s, t, serverID, proxyUserID, !ids.Worked(c), body, shown, back);
    }
  }

  lemma CameBack(s: State, t: State, serverID: int, proxyUserID: string, faulty: bool, body: Json, shown: Json,
                 back: Json)
    requires Coherent(s) && Coherent(t) && Grows(s, t)
    requires Rewritten(Proxy, Rel(s, Virtualize(serverID, {"", proxyUserID}), false), body, shown)
    requires Rewritten(Proxy, Rel(t, Devirtualize(serverID), faulty), shown, back)
    ensures "" !in t.cache && proxyUserID !in t.cache ==> back == body
  {
    if "" !in t.cache && proxyUserID !in t.cache {
      RoundTrip(s, t, serverID, {"", proxyUserID}, faulty, body, shown, back);
    }
  }

  // The random source of a store that counts its draws.
  ghost predicate Counts(ids: Store)
    reads ids
  {
    && ids.complete && ids.found == {}
    && (forall i: nat :: ids.random(i) == GenerateVirtualID(Counting(i)))
    && (forall i: nat :: ids.outcomes(i).first)
  }

  lemma StillReliable(ids: Store)
    requires Counts(ids) && ids.drawn <= DRAWS
    ensures ids.Reliable() && forall since: nat :: ids.Worked(since)
  {
    forall i: nat, j: nat | i < j < ids.drawn
      ensures ids.random(i) != ids.random(j)
    {
      if ids.random(i) == ids.random(j) {
        CountingRepeatsNothing(i, j);
      }
    }
  }

  // The IDs given out are generated ones, and there are no others in a store that started empty.
  lemma OnlyGenerated(ids: Store, v: string)
    requires Counts(ids) && ids.Given(v)
    ensures IsLikelyVirtualID(v)
  {
    var i: nat :| i < ids.drawn && ids.random(i) == v;
    GeneratedShape(Counting(i));
  }

  method Start() returns (ids: Store)
    ensures ids.Valid() && fresh(ids.Repr) && Counts(ids) && ids.drawn == 0
  {
    ids := new Store(Tables(map[], map[]), {}, Counting, _ => Outcome(true, true));
  }

  // The first name given out is the one the pair is kept under.
  method NameFirst(originalID: string, serverID: int) returns (name: string, ghost ids: Store)
    ensures ids.Valid() && ids.Reliable()
    ensures (originalID, serverID) in ids.Model().rmap && ids.Model().rmap[(originalID, serverID)] == name
  {
    var store := Start();
    name := NameItem(store, originalID, serverID, "");
    ids := store;
    StillReliable(ids);
  }

  // On such a store all of this is so for the first four thousand million IDs.
  method ServeCounted(setup: Setup, ids: Store, proxyUserID: string, body: Json, serverID: int, items: seq<EmbyItem>)
      returns (back: Json)
    requires ids.Valid() && Counts(ids)
    modifies ids.Repr
    ensures ids.Valid() && ids.Repr >= old(ids.Repr) && fresh(ids.Repr - old(ids.Repr))
    ensures ids.drawn <= DRAWS && !IsLikelyVirtualID(proxyUserID) ==> back == body
    ensures ids.drawn <= DRAWS && DistinctPrimaries(setup, items) ==> AllRegistered(ids.Model(), setup, items)
  {
    back := ServeTwice(setup, ids, proxyUserID, body, serverID, items);
    if ids.drawn <= DRAWS {
      StillReliable(ids);
      OnlyVirtual(ids);
    }
  }

  // And there is such a store.
  method ServeFirst(setup: Setup, proxyUserID: string, body: Json, serverID: int, items: seq<EmbyItem>)
      returns (back: Json, ghost ids: Store)
    ensures ids.Valid() && fresh(ids.Repr)
    ensures ids.drawn <= DRAWS && !IsLikelyVirtualID(proxyUserID) ==> back == body
    ensures ids.drawn <= DRAWS && DistinctPrimaries(setup, items) ==> AllRegistered(ids.Model(), setup, items)
  {
    var store := Start();
    back := ServeCounted(setup, store, proxyUserID, body, serverID, items);
    ids := store;
  }

  lemma OnlyVirtual(ids: Store)
    requires ids.Valid() && Counts(ids) && ids.drawn <= DRAWS
    ensures forall v | !IsLikelyVirtualID(v) :: v !in ids.Model().cache
  {
    StillReliable(ids);
    forall v | v in ids.Model().cache
      ensures IsLikelyVirtualID(v)
    {
      OnlyGenerated(ids, v);
    }
  }
}
