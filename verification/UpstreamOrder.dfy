// The order of the upstreams in internal/upstream/manager.go: in memory the order of a slice, in the
// database a priority column.
module UpstreamOrder {
  import opened Sequences

  class Upstream {
    const id: int
    var priority: int

    constructor (id: int, priority: int)
      ensures this.id == id && this.priority == priority
    {
      this.id, this.priority := id, priority;
    }
  }

  function Ids(upstreams: seq<Upstream>): (ids: seq<int>)
    ensures |ids| == |upstreams| && forall i | 0 <= i < |ids| :: ids[i] == upstreams[i].id
  {
    if upstreams == [] then [] else Ids(upstreams[..|upstreams| - 1]) + [upstreams[|upstreams| - 1].id]
  }

  lemma IdsOne(upstreams: seq<Upstream>, u: Upstream)
    ensures Ids(upstreams + [u]) == Ids(upstreams) + [u.id]
  {
    assert (upstreams + [u])[..|upstreams|] == upstreams;
  }

  lemma IdsWithout(upstreams: seq<Upstream>, i: nat)
    requires i < |upstreams|
    ensures Ids(upstreams[..i] + upstreams[i + 1..]) == Ids(upstreams)[..i] + Ids(upstreams)[i + 1..]
  {
    var rest, ids := upstreams[..i] + upstreams[i + 1..], Ids(upstreams)[..i] + Ids(upstreams)[i + 1..];
    assert |Ids(rest)| == |ids|;
    forall k | 0 <= k < |rest|
      ensures Ids(rest)[k] == ids[k]
    {
      assert Ids(rest)[k] == rest[k].id;
    }
  }

  lemma OneTakenOut(upstreams: seq<Upstream>, i: nat)
    requires i < |upstreams| && forall j | 0 <= j < i :: upstreams[j].id != upstreams[i].id
    ensures Ids(upstreams[..i] + upstreams[i + 1..]) == TakeOut(Ids(upstreams), upstreams[i].id)
  {
    IdsWithout(upstreams, i);
    TakeOutIs(Ids(upstreams), i);
  }

  lemma DistinctIds(upstreams: seq<Upstream>)
    requires NoRepeats(Ids(upstreams))
    ensures forall a, b | a in upstreams && b in upstreams && a.id == b.id :: a == b
  {
    forall a, b | a in upstreams && b in upstreams && a.id == b.id
      ensures a == b
    {
      var i :| 0 <= i < |upstreams| && upstreams[i] == a;
      var j :| 0 <= j < |upstreams| && upstreams[j] == b;
      assert Ids(upstreams)[i] == Ids(upstreams)[j];
    }
  }

  // ---------- the table ----------

  // id -> priority
  type Table = map<int, int>

  // UPDATE ... SET priority = i WHERE id = ids[i], one after the other; unknown ids match no row.
  function Prioritized(table: Table, ids: seq<int>): (r: Table)
    ensures r.Keys == table.Keys
  {
    if ids == [] then table
    else
      var before := Prioritized(table, ids[..|ids| - 1]);
      if ids[|ids| - 1] in table then before[ids[|ids| - 1] := |ids| - 1] else before
  }

  function Delivered(table: Table, delivered: set<int>): Table
  {
    map id | id in table && id in delivered :: table[id]
  }

  // A possible result of SELECT ... ORDER BY priority: ties come in any order.
  ghost predicate IsReload(table: Table, order: seq<int>)
  {
    && NoRepeats(order)
    && (forall id :: id in table <==> id in order)
    && (forall i, j | 0 <= i < j < |order| ::
       order[i] in table && order[j] in table && table[order[i]] <= table[order[j]])
  }

  // The slice holds exactly the table's upstreams, by strictly rising priority.
  ghost predicate InStep(table: Table, order: seq<int>)
  {
    && NoRepeats(order)
    && (forall id :: id in table <==> id in order)
    && (forall i, j | 0 <= i < j < |order| ::
       order[i] in table && order[j] in table && table[order[i]] < table[order[j]])
  }

  // The known ones of the ids, in their order.
  function Known(ids: seq<int>, current: seq<int>): seq<int>
  {
    if ids == [] then []
    else
      var before := Known(ids[..|ids| - 1], current);
      if ids[|ids| - 1] in current then before + [ids[|ids| - 1]] else before
  }

  lemma KnownOne(ids: seq<int>, id: int, current: seq<int>)
    ensures Known(ids + [id], current) == Known(ids, current) + if id in current then [id] else []
  {
    assert (ids + [id])[..|ids|] == ids;
  }

  // ---------- the manager ----------

  predicate LastPlace(upstreams: seq<Upstream>, u: Upstream, i: int)
  {
    0 <= i < |upstreams| && upstreams[i] == u && forall j | i < j < |upstreams| :: upstreams[j] != u
  }

  class Manager {
    var upstreams: seq<Upstream>
    var table: Table

    // An ID names one object.
    ghost predicate Valid()
      reads this, upstreams
    {
      forall a, b | a in upstreams && b in upstreams && a.id == b.id :: a == b
    }

    // The rows that are not delivered, all of them if the query fails, are missing from memory.
    constructor (table: Table, delivered: set<int>)
      ensures Valid() && fresh(upstreams)
      ensures this.table == table && IsReload(Delivered(table, delivered), Ids(upstreams))
      ensures forall u | u in upstreams :: u.id in table && u.priority == table[u.id]
    {
      this.table := table;
      var loaded := LoadFromDB(Delivered(table, delivered));
      upstreams := loaded;
      new;
      DistinctIds(upstreams);
    }

    static method LoadFromDB(table: Table) returns (upstreams: seq<Upstream>)
      ensures fresh(upstreams) && IsReload(table, Ids(upstreams))
      ensures forall u | u in upstreams :: u.id in table && u.priority == table[u.id]
    {
      upstreams := [];
      var pending := table.Keys;
      while pending != {}
        invariant fresh(upstreams) && ReadSoFar(table, Ids(upstreams), pending)
        invariant forall u | u in upstreams :: u.id in table && u.priority == table[u.id]
        decreases pending
      {
        ghost var first := Lowest(table, pending);
        var id :| id in pending && forall x | x in pending :: table[id] <= table[x];
        ReadOne(table, Ids(upstreams), pending, id);
        var u := new Upstream(id, table[id]);
        IdsOne(upstreams, u);
        pending := pending - {id};
        upstreams := upstreams + [u];
      }
    }

    method ByID(id: int) returns (found: Upstream?)
      ensures found != null ==> found in upstreams && found.id == id
      ensures found == null ==> id !in Ids(upstreams)
    {
      for i := 0 to |upstreams|
        invariant forall j | 0 <= j < i :: upstreams[j].id != id
      {
        if upstreams[i].id == id {
          return upstreams[i];
        }
      }
      return null;
    }

    // The new row has the column's default priority. id is the key the table gives it.
    method Add(id: int, inserted: bool) returns (ok: bool)
      requires Valid() && id !in table && id !in Ids(upstreams)
      modifies this
      ensures Valid() && ok == inserted
      ensures Ids(upstreams) == old(Ids(upstreams)) + if ok then [id] else []
      ensures table == if ok then old(table)[id := 0] else old(table)
    {
      if !inserted {
        return false;
      }
      table := table[id := 0];
      var u := new Upstream(id, 0);
      IdsOne(upstreams, u);
      upstreams := upstreams + [u];
      return true;
    }

    method Remove(id: int, deleted: bool) returns (ok: bool)
      requires Valid()
      modifies this
      ensures Valid() && ok == (id in old(Ids(upstreams)) && deleted)
      ensures !ok ==> upstreams == old(upstreams) && table == old(table)
      ensures ok ==> table == old(table) - {id}
      ensures ok ==> Ids(upstreams) == TakeOut(old(Ids(upstreams)), id) && forall u | u in upstreams ::
              u in old(upstreams)
    {
      var idx := -1;
      for i := 0 to |upstreams|
        invariant idx == -1 && forall j | 0 <= j < i :: upstreams[j].id != id
      {
        if upstreams[i].id == id {
          idx := i;
          break;
        }
      }
      if idx == -1 {
        return false;
      }
      assert Ids(upstreams)[idx] == id;
      if !deleted {
        return false;
      }
      table := table - {id};
      OneTakenOut(upstreams, idx);
      upstreams := upstreams[..idx] + upstreams[idx + 1..];
      return true;
    }

    // committed: the transaction with the updates went through. An upstream named more than once stands
    // in memory as often, with the priority of its last place.
    method Reorder(ids: seq<int>, committed: bool) returns (ok: bool)
      requires Valid()
      modifies this, upstreams
      ensures Valid() && ok == committed
      ensures !ok ==> upstreams == old(upstreams) && table == old(table)
      ensures !ok ==> forall u | u in upstreams :: u.priority == old(u.priority)
      ensures ok ==> table == Prioritized(old(table), ids)
      ensures ok ==> Ids(upstreams) == Known(ids, old(Ids(upstreams))) && forall u | u in upstreams ::
              u in old(upstreams)
      ensures ok ==> forall u | u in upstreams :: LastPlace(upstreams, u, u.priority)
    {
      var tx := table;
      for i := 0 to |ids|
        invariant tx == Prioritized(table, ids[..i])
      {
        assert ids[..i + 1][..i] == ids[..i];
        if ids[i] in tx {
          tx := tx[ids[i] := i];
        }
      }
      assert ids[..|ids|] == ids;
      if !committed {
        return false;
      }
      table := tx;
      Arrange(ids);
      return true;
    }

    // The nested loops of Reorder.
    method Arrange(ids: seq<int>)
      requires Valid()
      modifies this`upstreams, upstreams
      ensures Valid()
      ensures Ids(upstreams) == Known(ids, old(Ids(upstreams))) && forall u | u in upstreams :: u in old(upstreams)
      ensures forall u | u in upstreams :: LastPlace(upstreams, u, u.priority)
    {
      var ordered: seq<Upstream> := [];
      for i := 0 to |ids|
        invariant upstreams == old(upstreams)
        invariant forall u | u in ordered :: u in upstreams
        invariant Ids(ordered) == Known(ids[..i], old(Ids(upstreams)))
        invariant forall u | u in ordered :: LastPlace(ordered, u, u.priority)
      {
        KnownOne(ids[..i], ids[i], Ids(upstreams));
        assert ids[..i + 1] == ids[..i] + [ids[i]];
        var u := ByID(ids[i]);
        if u != null {
          u.priority := |ordered|;
          IdsOne(ordered, u);
          ordered := ordered + [u];
          assert u.id in Ids(upstreams);
        }
      }
      assert ids[..|ids|] == ids;
      upstreams := ordered;
    }
  }

  lemma Empty(s: set<int>)
    requires forall x :: x !in s
    ensures s == {}
  {
    assert forall x :: x in s <==> x in {};
  }

  lemma {:induction false} Lowest(table: Table, pending: set<int>) returns (id: int)
    requires pending != {} && pending <= table.Keys
    ensures id in pending && forall x | x in pending :: table[id] <= table[x]
    decreases |pending|
  {
    assert exists x :: x in pending by {
      if forall x :: x !in pending {
        Empty(pending);
      }
    }
    var some :| some in pending;
    var rest := pending - {some};
    id := some;
    if rest != {} {
      var least := Lowest(table, rest);
      id := if table[least] < table[some] then least else some;
    }
    forall x | x in pending
      ensures table[id] <= table[x]
    {
      if x != some {
        assert x in rest;
      }
    }
  }

  // The rows read so far, lowest first, while those of the pending IDs are still to come.
  ghost predicate ReadSoFar(table: Table, order: seq<int>, pending: set<int>)
  {
    && NoRepeats(order) && pending <= table.Keys
    && (forall id :: id in order <==> id in table && id !in pending)
    && (forall i, j | 0 <= i < j < |order| ::
       order[i] in table && order[j] in table && table[order[i]] <= table[order[j]])
    && (forall i, id | 0 <= i < |order| && id in pending :: order[i] in table && table[order[i]] <= table[id])
  }

  lemma ReadOne(table: Table, order: seq<int>, pending: set<int>, id: int)
    requires ReadSoFar(table, order, pending) && id in pending && forall x | x in pending :: table[id] <= table[x]
    ensures ReadSoFar(table, order + [id], pending - {id})
  {
    var order' := order + [id];
    assert forall i | 0 <= i < |order| :: order[i] in order;
    assert order'[|order|] == id;
    assert forall x | x in order :: x in order';
  }

  // ---------- memory and table agree on the order ----------

  // In step, the slice is the only order a reload can give.
  lemma {:induction false} ReloadUnique(table: Table, order: seq<int>, reload: seq<int>)
    requires InStep(table, order) && IsReload(table, reload)
    ensures reload == order
    decreases |order|
  {
    assert forall id :: id in order <==> id in table;
    assert forall id :: id in reload <==> id in table;
    SameIds(order, reload);
    if order != [] {
      SameLast(table, order, reload);
      var last := order[|order| - 1];
      CutLast(table, order);
      CutLastReload(table, reload);
      ReloadUnique(table - {last}, order[..|order| - 1], reload[..|reload| - 1]);
      assert order == order[..|order| - 1] + [last];
      assert reload == reload[..|reload| - 1] + [last];
    }
  }

  lemma SameIds(order: seq<int>, reload: seq<int>)
    requires forall id :: id in order <==> id in reload
    ensures order == [] <==> reload == []
  {
    if order != [] {
      var first := order[0];
      assert first in order;
    }
    if reload != [] {
      var first := reload[0];
      assert first in reload;
    }
  }

  lemma SameLast(table: Table, order: seq<int>, reload: seq<int>)
    requires InStep(table, order) && IsReload(table, reload) && order != [] && reload != []
    ensures reload[|reload| - 1] == order[|order| - 1]
  {
    var last, end := order[|order| - 1], reload[|reload| - 1];
    assert last in order && last in reload && end in reload && end in order;
    var k :| 0 <= k < |order| && order[k] == end;
    var m :| 0 <= m < |reload| && reload[m] == last;
  }

  lemma CutLast(table: Table, order: seq<int>)
    requires InStep(table, order) && order != []
    ensures InStep(table - {order[|order| - 1]}, order[..|order| - 1])
  {
    RemoveKeepsStep(table, order, |order| - 1);
    assert order[..|order| - 1] + order[|order|..] == order[..|order| - 1];
  }

  lemma CutLastReload(table: Table, order: seq<int>)
    requires IsReload(table, order) && order != []
    ensures IsReload(table - {order[|order| - 1]}, order[..|order| - 1])
  {
    var n := |order| - 1;
    forall id
      ensures id in table - {order[n]} <==> id in order[..n]
    {
      if id in table && id != order[n] {
        var j :| 0 <= j < |order| && order[j] == id;
        assert order[..n][j] == id;
      }
    }
  }

  lemma RemoveKeepsStep(table: Table, order: seq<int>, i: nat)
    requires InStep(table, order) && i < |order|
    ensures InStep(table - {order[i]}, order[..i] + order[i + 1..])
  {
    var rest := order[..i] + order[i + 1..];
    assert forall j | 0 <= j < |rest| :: rest[j] == order[if j < i then j else j + 1];
    forall id
      ensures id in table - {order[i]} <==> id in rest
    {
      if id in table && id != order[i] {
        var j :| 0 <= j < |order| && order[j] == id;
        assert rest[if j < i then j else j - 1] == id;
      }
    }
  }

  // No upstream at hand is named twice; IDs of no upstream may be.
  ghost predicate NamedOnce(ids: seq<int>, current: seq<int>)
  {
    forall i, j | 0 <= i < j < |ids| && ids[i] in current :: ids[i] != ids[j]
  }

  lemma {:induction false} KnownMembers(ids: seq<int>, current: seq<int>)
    ensures forall id :: id in Known(ids, current) <==> id in ids && id in current
    decreases |ids|
  {
    if ids != [] {
      var before, last := ids[..|ids| - 1], ids[|ids| - 1];
      assert ids == before + [last];
      KnownMembers(before, current);
    }
  }

  lemma {:induction false} KnownRepeats(ids: seq<int>, current: seq<int>)
    ensures NoRepeats(Known(ids, current)) <==> NamedOnce(ids, current)
    decreases |ids|
  {
    if ids != [] {
      var before, last := ids[..|ids| - 1], ids[|ids| - 1];
      assert ids == before + [last];
      KnownRepeats(before, current);
      KnownMembers(before, current);
      AppendRepeats(Known(before, current), last);
      NamedOnceMore(before, last, current);
    }
  }

  lemma AppendRepeats(s: seq<int>, x: int)
    ensures NoRepeats(s + [x]) <==> NoRepeats(s) && x !in s
  {
    var all := s + [x];
    assert all[|s|] == x && forall i | 0 <= i < |s| :: all[i] == s[i];
    if x in s {
      var i :| 0 <= i < |s| && s[i] == x;
      assert all[i] == all[|s|];
    }
  }

  lemma NamedOnceMore(ids: seq<int>, id: int, current: seq<int>)
    ensures NamedOnce(ids + [id], current) <==> NamedOnce(ids, current) && !(id in current && id in ids)
  {
    var all := ids + [id];
    assert all[|ids|] == id && forall i | 0 <= i < |ids| :: all[i] == ids[i];
    if id in current && id in ids {
      var i :| 0 <= i < |ids| && ids[i] == id;
      assert all[i] == all[|ids|];
    }
  }

  // The places rise, and all are below a bound.
  ghost predicate Placed(t: Table, k: seq<int>, bound: int)
  {
    && (forall i, j | 0 <= i < j < |k| :: k[i] in t && k[j] in t && t[k[i]] < t[k[j]])
    && (forall id | id in k :: id in t && t[id] < bound)
  }

  lemma PlacedMore(t: Table, k: seq<int>, bound: int, last: int)
    requires Placed(t, k, bound) && last !in k
    ensures Placed(t[last := bound], k + [last], bound + 1) && Placed(t[last := bound], k, bound + 1)
    ensures Placed(t, k, bound + 1)
  {
    var t', k' := t[last := bound], k + [last];
    forall id | id in k'
      ensures id in t' && t'[id] < bound + 1 && (id in k ==> t'[id] == t[id])
    {
      assert id in k ==> id != last && id in t && t[id] < bound;
    }
    forall i, j | 0 <= i < j < |k'|
      ensures k'[i] in t' && k'[j] in t' && t'[k'[i]] < t'[k'[j]]
    {
      assert k'[i] == k[i] && k[i] in k && k[i] != last;
      if j < |k| {
        assert k'[j] == k[j] && k[j] in k && k[j] != last;
      }
    }
  }

  lemma {:induction false} ReorderPositions(table: Table, ids: seq<int>, current: seq<int>)
    requires NamedOnce(ids, current) && forall id | id in ids && id in current :: id in table
    ensures var t, k := Prioritized(table, ids), Known(ids, current);
            Placed(t, k, |ids|)
    decreases |ids|
  {
    if ids != [] {
      var before, last := ids[..|ids| - 1], ids[|ids| - 1];
      assert ids == before + [last];
      NamedOnceMore(before, last, current);
      ReorderPositions(table, before, current);
      KnownMembers(before, current);
      var t, k := Prioritized(table, before), Known(before, current);
      assert last !in k && |ids| == |before| + 1;
      assert last in current ==> last in ids && last in table;
      PlacedMore(t, k, |before|, last);
    }
  }

  // Reordering by IDs that name every current upstream, and none twice, puts memory and table in step.
  lemma ReorderInStep(table: Table, ids: seq<int>, current: seq<int>)
    requires NamedOnce(ids, current) && (forall id :: id in table <==> id in current)
    requires forall id | id in current :: id in ids
    ensures InStep(Prioritized(table, ids), Known(ids, current))
  {
    ReorderPositions(table, ids, current);
    KnownRepeats(ids, current);
    KnownMembers(ids, current);
  }

  // With a permutation of the current IDs, memory is in just that order.
  lemma {:induction false} KnownOfKnown(ids: seq<int>, current: seq<int>)
    requires forall id | id in ids :: id in current
    ensures Known(ids, current) == ids
    decreases |ids|
  {
    if ids != [] {
      var before, last := ids[..|ids| - 1], ids[|ids| - 1];
      assert ids == before + [last];
      assert last in ids && forall id | id in before :: id in ids;
      KnownOfKnown(before, current);
    }
  }

  // Whatever the IDs: memory is what a reload could give exactly if no upstream at hand is named twice and
  // the table holds just the upstreams that are at hand and named. An upstream the IDs leave out is gone
  // from memory and still in the table.
  lemma ReorderAgreesIff(table: Table, ids: seq<int>, current: seq<int>)
    ensures IsReload(Prioritized(table, ids), Known(ids, current)) <==>
            NamedOnce(ids, current) && forall id :: id in table <==> id in ids && id in current
    ensures (forall id :: id in table <==> id in current) ==>
              (IsReload(Prioritized(table, ids), Known(ids, current)) <==>
               NamedOnce(ids, current) && forall id | id in current :: id in ids)
  {
    KnownMembers(ids, current);
    KnownRepeats(ids, current);
    if NamedOnce(ids, current) && forall id :: id in table <==> id in ids && id in current {
      ReorderPositions(table, ids, current);
    }
  }

  // After such a reordering and any removals, a restart finds the upstreams in the order they were in.
  lemma {:induction false} RemovalsKeepOrder(table: Table, order: seq<int>, removed: seq<int>, reload: seq<int>)
    requires InStep(table, order) && IsReload(Without(table, removed), reload)
    ensures reload == Left(order, removed)
    decreases |removed|
  {
    if removed == [] {
      ReloadUnique(table, order, reload);
    } else {
      var id := removed[0];
      if i :| 0 <= i < |order| && order[i] == id {
        RemoveKeepsStep(table, order, i);
        TakeOutIs(order, i);
        RemovalsKeepOrder(table - {id}, order[..i] + order[i + 1..], removed[1..], reload);
      } else {
        assert id !in order && table - {id} == table;
        TakeOutNone(order, id);
        RemovalsKeepOrder(table, order, removed[1..], reload);
      }
    }
  }

  function Without(table: Table, removed: seq<int>): Table
    decreases |removed|
  {
    if removed == [] then table else Without(table - {removed[0]}, removed[1..])
  }

  function TakeOut(order: seq<int>, id: int): seq<int>
  {
    if order == [] then [] else if order[0] == id then order[1..] else [order[0]] + TakeOut(order[1..], id)
  }

  function Left(order: seq<int>, removed: seq<int>): seq<int>
    decreases |removed|
  {
    if removed == [] then order else Left(TakeOut(order, removed[0]), removed[1..])
  }

  lemma {:induction false} TakeOutIs(order: seq<int>, i: nat)
    requires i < |order| && forall j | 0 <= j < i :: order[j] != order[i]
    ensures TakeOut(order, order[i]) == order[..i] + order[i + 1..]
    decreases |order|
  {
    if i > 0 {
      TakeOutIs(order[1..], i - 1);
      assert order[1..][..i - 1] == order[1..i] && order[1..][i..] == order[i + 1..];
      assert [order[0]] + (order[1..i] + order[i + 1..]) == order[..i] + order[i + 1..];
    }
  }

  lemma {:induction false} TakeOutNone(order: seq<int>, id: int)
    requires id !in order
    ensures TakeOut(order, id) == order
    decreases |order|
  {
    if order != [] {
      TakeOutNone(order[1..], id);
    }
  }

  // A new upstream stands last in memory but has priority 0 in the table: a reload can give the order of
  // memory exactly if it could before and no other upstream has a positive priority.
  lemma AddAgreesIff(table: Table, order: seq<int>, id: int)
    requires id !in table && id !in order
    ensures IsReload(table[id := 0], order + [id]) <==> IsReload(table, order) && forall x | x in table :: table[x] <= 0
  {
    var t, all := table[id := 0], order + [id];
    assert all[|order|] == id && forall i | 0 <= i < |order| :: all[i] == order[i] && order[i] in order;
    assert forall x :: x in all <==> x in order || x == id;
    AppendRepeats(order, id);
    if IsReload(t, all) {
      forall x | x in table
        ensures table[x] <= 0
      {
        assert x in t && x in all && x != id;
        var j :| 0 <= j < |order| && order[j] == x;
        assert t[all[j]] <= t[all[|order|]];
      }
      forall i, j | 0 <= i < j < |order|
        ensures order[i] in table && order[j] in table && table[order[i]] <= table[order[j]]
      {
        assert all[i] in t && all[j] in t && t[all[i]] <= t[all[j]];
      }
    }
  }

  // ---------- it happens ----------

  // Reordering two upstreams by a list that names one leaves memory with one, while a restart would bring
  // back two.
  lemma ReorderDropsOne(reload: seq<int>)
    requires IsReload(Prioritized(map[1 := 0, 2 := 1], [2]), reload)
    ensures Known([2], [1, 2]) == [2] && 1 in reload && reload != [2]
  {
    KnownOne([], 2, [1, 2]);
    assert [] + [2] == [2];
    assert 1 in Prioritized(map[1 := 0, 2 := 1], [2]);
  }

  // A list that names one of them twice puts it into memory twice; a removal then takes it out of the table
  // and leaves it in memory.
  lemma ReorderDoublesOne(reload: seq<int>)
    requires IsReload(Prioritized(map[1 := 0, 2 := 1], [1, 1, 2]), reload)
    ensures Known([1, 1, 2], [1, 2]) == [1, 1, 2] && reload != [1, 1, 2]
    ensures TakeOut([1, 1, 2], 1) == [1, 2]
  {
    KnownOfKnown([1, 1, 2], [1, 2]);
    assert [1, 1, 2][0] == [1, 1, 2][1];
    TakeOutIs([1, 1, 2], 0);
  }

  // Adding a third upstream to two in step puts it last in memory, where no restart does.
  lemma AddAfterReorder(reload: seq<int>)
    requires IsReload(map[1 := 0, 2 := 1, 3 := 0], reload)
    ensures reload != [1, 2, 3]
  {
    var table := map[1 := 0, 2 := 1];
    assert 2 in table && table[2] == 1;
    AddAgreesIff(table, [1, 2], 3);
    assert [1, 2] + [3] == [1, 2, 3] && table[3 := 0] == map[1 := 0, 2 := 1, 3 := 0];
  }

  // Also where all priorities are 0: of two upstreams just added a reordering by [1] drops one, and a third
  // follows.
  lemma AddAfterLoss(reload: seq<int>)
    requires IsReload(Prioritized(map[1 := 0, 2 := 0], [1])[3 := 0], reload)
    ensures Known([1], [1, 2]) + [3] == [1, 3] && reload != [1, 3]
  {
    KnownOfKnown([1], [1, 2]);
    assert 2 in Prioritized(map[1 := 0, 2 := 0], [1])[3 := 0];
    assert 2 in reload && 2 !in [1, 3];
  }
}
