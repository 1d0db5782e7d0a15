// Answering a list request: the items of all upstreams are merged and sent out under virtual IDs
// (encodeItems of internal/aggregator/aggregator.go), and what comes of a client using such an ID.
module Aggregation {
  import opened Wrappers
  import opened Text
  import opened JsonTree
  import opened IdMap
  import opened IdStore
  import opened JsonIds
  import opened Dedup
  import opened MergeResults
  import opened Paths

  // Each merged item goes out as its own raw JSON with the aggregator's ID fields renamed.
  ghost predicate Encoded(s: State, faulty: bool, merged: seq<EmbyItem>, out: seq<Json>)
  {
    && |out| == |merged|
    && forall i | 0 <= i < |out| ::
         Rewritten(Aggregator, Rel(s, Virtualize(merged[i].serverID, {""}), faulty), merged[i].raw, out[i])
  }

  // So far, and no entry of the store has changed since the start.
  ghost predicate Encoding(start: State, s: State, faulty: bool, merged: seq<EmbyItem>, out: seq<Json>)
  {
    KeepsEntries(start, s) && Encoded(s, faulty, merged, out)
  }

  // One item more is encoded, and those before are, seen from the store as it is now.
  lemma EncodedStep(start: State, s: State, t: State, before: bool, now: bool, faulty: bool,
                    merged: seq<EmbyItem>, out: seq<Json>, item: EmbyItem, raw: Json)
    requires Encoding(start, s, before, merged, out) && KeepsEntries(s, t) && (before || now ==> faulty)
    requires Rewritten(Aggregator, Rel(t, Virtualize(item.serverID, {""}), now), item.raw, raw)
    ensures Encoding(start, t, faulty, merged + [item], out + [raw])
  {
    forall i | 0 <= i <= |out|
      ensures Rewritten(Aggregator, Rel(t, Virtualize((merged + [item])[i].serverID, {""}), faulty),
                        (merged + [item])[i].raw, (out + [raw])[i])
    {
      var m, o := (merged + [item])[i], (out + [raw])[i];
      var rewrite := Virtualize(m.serverID, {""});
      ExtendsWeaker(s, t, rewrite, before, faulty);
      ExtendsWeaker(t, t, rewrite, now, faulty);
      RewrittenWeaker(Aggregator, if i < |out| then Rel(s, rewrite, before) else Rel(t, rewrite, now),
                      Rel(t, rewrite, faulty), m.raw, o);
    }
  }

  lemma RegisteredStays(s: State, t: State, setup: Setup, items: seq<EmbyItem>)
    requires AllRegistered(s, setup, items) && KeepsEntries(s, t)
    ensures AllRegistered(t, setup, items)
  {
    forall key | |GroupOf(setup.lower, items, key)| > 1
      ensures Registered(t, setup, GroupOf(setup.lower, items, key))
    {
      assert Registered(s, setup, GroupOf(setup.lower, items, key));
    }
  }

  method EncodeItems(setup: Setup, store: Store, items: seq<EmbyItem>)
      returns (out: seq<Json>, ghost merged: seq<EmbyItem>)
    requires store.Valid()
    modifies store.Repr
    ensures store.Valid() && store.Repr >= old(store.Repr) && fresh(store.Repr - old(store.Repr))
    ensures store.clock >= old(store.clock) && store.drawn >= old(store.drawn)
    ensures DedupOf(setup, items, merged)
    ensures store.Reliable() ==> Encoded(store.Model(), !store.Worked(old(store.clock)), merged, out)
    ensures Working(store, old(store.clock)) && DistinctPrimaries(setup, items) ==>
            AllRegistered(store.Model(), setup, items)
  {
    var all := Merge(setup, store, items);
    ghost var start, since := store.Model(), store.clock;
    merged := all;
    out := EncodeAll(store, all);
    if Working(store, old(store.clock)) && DistinctPrimaries(setup, items) {
      RegisteredStays(start, store.Model(), setup, items);
    }
    if store.Reliable() {
      EncodedWeaker(store.Model(), !store.Worked(since), !store.Worked(old(store.clock)), merged, out);
    }
  }

  lemma EncodedWeaker(s: State, before: bool, faulty: bool, merged: seq<EmbyItem>, out: seq<Json>)
    requires Encoded(s, before, merged, out) && (before ==> faulty)
    ensures Encoded(s, faulty, merged, out)
  {
    forall i | 0 <= i < |out|
      ensures Rewritten(Aggregator, Rel(s, Virtualize(merged[i].serverID, {""}), faulty), merged[i].raw, out[i])
    {
      var rewrite := Virtualize(merged[i].serverID, {""});
      ExtendsWeaker(s, s, rewrite, before, faulty);
      RewrittenWeaker(Aggregator, Rel(s, rewrite, before), Rel(s, rewrite, faulty), merged[i].raw, out[i]);
    }
  }

  method EncodeAll(store: Store, merged: seq<EmbyItem>) returns (out: seq<Json>)
    requires store.Valid()
    modifies store
    ensures store.Valid() && store.Repr >= old(store.Repr) && fresh(store.Repr - old(store.Repr))
    ensures store.clock >= old(store.clock) && store.drawn >= old(store.drawn)
    ensures store.Reliable() ==>
              && KeepsEntries(old(store.Model()), store.Model())
              && Encoded(store.Model(), !store.Worked(old(store.clock)), merged, out)
  {
    ghost var start, since := store.Model(), store.clock;
    ghost var done: seq<EmbyItem> := [];
    out := [];
    for i := 0 to |merged|
      invariant done == merged[..i]
      invariant store.Valid() && store.Repr >= old(store.Repr) && fresh(store.Repr - old(store.Repr))
      invariant store.clock >= since && store.drawn >= old(store.drawn)
      invariant store.Reliable() ==> Encoding(start, store.Model(), !store.Worked(since), done, out)
    {
      ghost var s, c, before := store.Model(), store.clock, !store.Worked(since);
      var raw := WalkAndVirtualize(store, merged[i].serverID, merged[i].raw);
      if store.Reliable() {
        EncodedStep(start, s, store.Model(), before, !store.Worked(c), !store.Worked(since), done, out, merged[i], raw);
      }
      out, done := out + [raw], done + [merged[i]];
    }
    assert done == merged;
  }

  // An item that says its ID in its own JSON.
  predicate SaysID(item: EmbyItem)
  {
    && item.id != ""
    && item.raw.Object? && "Id" in item.raw.members && item.raw.members["Id"] == Str(item.id)
  }

  lemma SentID(s: State, merged: seq<EmbyItem>, out: seq<Json>, at: nat)
    requires Encoded(s, false, merged, out) && at < |merged| && SaysID(merged[at])
    ensures (merged[at].id, merged[at].serverID) in s.rmap
    ensures out[at].Object? && "Id" in out[at].members
    ensures out[at].members["Id"] == Str(s.rmap[(merged[at].id, merged[at].serverID)])
  {
    var rel := Rel(s, Virtualize(merged[at].serverID, {""}), false);
    assert Rewritten(Aggregator, rel, merged[at].raw, out[at]);
    assert MemberRewritten(Aggregator, rel, "Id", merged[at].raw.members["Id"], out[at].members["Id"]);
  }

  lemma ShownIDLeads(s: State, setup: Setup, group: seq<EmbyItem>, m: EmbyItem,
                      server: int, faulty: bool, segments: seq<string>, i: nat, r: Option<string>)
    requires Coherent(s) && |group| > 1 && MergedFrom(setup, group, m) && Registered(s, setup, group)
    requires HasItemOn(group, server) && OnlyVirtualID(segments, i)
    requires (m.id, m.serverID) in s.rmap && segments[i] == s.rmap[(m.id, m.serverID)]
    requires PathFor(s, server, faulty, segments, r)
    ensures LeadsTo(group, m, server, segments, i, r)
  {
    MergedPathLeads(s, setup, group, server, faulty, segments, i, r);
    var id := OriginalForUpstream(s, segments[i], server, true, true).value;
    assert r == Some(Join(segments[i := id], "/"));
    assert ShownOrLast(group, m, server, id);
  }

  // A server's own ID for a group: the shown item's on its own server, that of the last item of the
  // group there on any other.
  ghost predicate ShownOrLast(group: seq<EmbyItem>, m: EmbyItem, server: int, id: string)
  {
    if server == m.serverID then id == m.id else LastOn(group, server, id)
  }

  // The path goes out to a server with the server's own ID in place of the virtual one.
  ghost predicate LeadsTo(group: seq<EmbyItem>, m: EmbyItem, server: int, segments: seq<string>, i: nat,
                          r: Option<string>)
    requires i < |segments|
  {
    exists id :: ShownOrLast(group, m, server, id) && r == Some(Join(segments[i := id], "/"))
  }

  // The segment is the one of its path that looks like a virtual ID.
  predicate OnlyVirtualID(segments: seq<string>, i: nat)
  {
    && i < |segments| && IsLikelyVirtualID(segments[i])
    && forall j | 0 <= j < |segments| && j != i :: !IsLikelyVirtualID(segments[j])
  }

  ghost predicate HasItemOn(group: seq<EmbyItem>, server: int)
  {
    exists x | x in group :: x.serverID == server
  }

  // What a client sees of a merged group and where it leads: the entry sent out names the group by one
  // ID, and a path that holds this ID and no other reaches every server of the group with an ID of its own.
  lemma SentIDLeads(s: State, setup: Setup, items: seq<EmbyItem>, merged: seq<EmbyItem>, out: seq<Json>, at: nat,
                    server: int, faulty: bool, segments: seq<string>, i: nat, r: Option<string>)
    requires Coherent(s) && DedupOf(setup, items, merged) && AllRegistered(s, setup, items) &&
             Encoded(s, false, merged, out)
    requires at < |merged| && SaysID(merged[at]) && OnlyVirtualID(segments, i)
    ensures out[at].Object? && "Id" in out[at].members
    ensures var group := GroupOf(setup.lower, items, BuildDedupKey(setup.lower, merged[at]));
            |group| > 1 && HasItemOn(group, server) && out[at].members["Id"] == Str(segments[i]) &&
              PathFor(s, server, faulty, segments, r)
            ==> LeadsTo(group, merged[at], server, segments, i, r)
  {
    var key := BuildDedupKey(setup.lower, merged[at]);
    var group := GroupOf(setup.lower, items, key);
    SentID(s, merged, out, at);
    if |group| > 1 && HasItemOn(group, server) && out[at].members["Id"] == Str(segments[i]) &&
      PathFor(s, server, faulty, segments, r) {
      assert HasKey(setup.lower, items, key) by {
        GroupMembers(setup.lower, items, key);
      }
      assert Registered(s, setup, group);
      assert MergedFrom(setup, group, merged[at]) by {
        assert merged[at] in merged;
      }
      ShownIDLeads(s, setup, group, merged[at], server, faulty, segments, i, r);
    }
  }
}
