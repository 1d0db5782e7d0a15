// Merging the items of all upstreams: dedup of internal/aggregator/aggregator.go, from the grouping to
// what the ID store knows afterwards.
module Dedup {
  import opened Wrappers
  import opened Sequences
  import opened JsonTree
  import opened IdMap
  import opened IdStore
  import opened MediaOrder

  datatype EmbyItem = EmbyItem(
    raw: Json,
    id: string,
    name: string,
    itemType: string,
    providerIDs: map<string, string>,
    mediaSources: seq<MediaSource>,
    serverID: int)

  // What an aggregator is set up with: the codec priorities, the servers whose upstream is known and has
  // metadata priority, and lower-casing.
  datatype Setup = Setup(codecPriority: map<string, int>, priorityMeta: set<int>, lower: string -> string)

  function Provider(item: EmbyItem, name: string): string
  {
    if name in item.providerIDs then item.providerIDs[name] else ""
  }

  function BuildDedupKey(lower: string -> string, item: EmbyItem): string
  {
    if Provider(item, "Tmdb") != "" then "tmdb:" + Provider(item, "Tmdb") + ":" + item.itemType
    else if Provider(item, "Imdb") != "" then "imdb:" + Provider(item, "Imdb") + ":" + item.itemType
    else if Provider(item, "Tvdb") != "" then "tvdb:" + Provider(item, "Tvdb") + ":" + item.itemType
    else "name:" + lower(item.name) + ":" + item.itemType
  }

  predicate ContainsChinese(s: string)
  {
    exists c | c in s :: 0x4e00 <= c as int <= 0x9fff
  }

  function MaxBitrate(sources: seq<MediaSource>): (max: int)
    ensures max >= 0 && forall s | s in sources :: s.bitrate <= max
    ensures max == 0 || exists s | s in sources :: s.bitrate == max
  {
    if sources == [] then 0
    else
      var rest := MaxBitrate(sources[..|sources| - 1]);
      if sources[|sources| - 1].bitrate > rest then sources[|sources| - 1].bitrate else rest
  }

  // ---------- groups ----------

  function GroupOf(lower: string -> string, items: seq<EmbyItem>, key: string): seq<EmbyItem>
  {
    if items == [] then []
    else
      var rest, last := GroupOf(lower, items[..|items| - 1], key), items[|items| - 1];
      if BuildDedupKey(lower, last) == key then rest + [last] else rest
  }

  ghost predicate HasKey(lower: string -> string, items: seq<EmbyItem>, key: string)
  {
    exists item | item in items :: BuildDedupKey(lower, item) == key
  }

  lemma {:induction false} GroupElement(lower: string -> string, items: seq<EmbyItem>, key: string, x: EmbyItem)
    ensures x in GroupOf(lower, items, key) <==> x in items && BuildDedupKey(lower, x) == key
  {
    if items != [] {
      var before, last := items[..|items| - 1], items[|items| - 1];
      GroupElement(lower, before, key, x);
      assert items == before + [last];
    }
  }

  lemma GroupMembers(lower: string -> string, items: seq<EmbyItem>, key: string)
    ensures forall x :: x in GroupOf(lower, items, key) <==> x in items && BuildDedupKey(lower, x) == key
    ensures GroupOf(lower, items, key) != [] <==> HasKey(lower, items, key)
  {
    var group := GroupOf(lower, items, key);
    forall x
      ensures x in group <==> x in items && BuildDedupKey(lower, x) == key
    {
      GroupElement(lower, items, key, x);
    }
    if group != [] {
      assert group[0] in group;
    }
  }

  lemma GroupOne(lower: string -> string, items: seq<EmbyItem>, last: EmbyItem, key: string)
    ensures GroupOf(lower, items + [last], key)
         == if BuildDedupKey(lower, last) == key then GroupOf(lower, items, key) + [last]
           else GroupOf(lower, items, key)
  {
    assert (items + [last])[..|items|] == items;
  }

  // ---------- the primary ----------

  method SelectPrimary(setup: Setup, group: seq<EmbyItem>) returns (best: EmbyItem)
    requires group != []
    ensures best == Primary(setup, group)
  {
    best := group[0];
    ghost var at: nat := 0;
    var i := 1;
    while i < |group|
      invariant 1 <= i <= |group| && at < i && best == group[at]
      invariant forall j | 1 <= j < i :: group[j].serverID !in setup.priorityMeta
      invariant at == FirstChinese(group[..i]) || (at == 0 && FirstChinese(group[..i]) == i)
    {
      assert group[..i + 1] == group[..i] + [group[i]];
      FirstChineseOne(group[..i], group[i]);
      if group[i].serverID in setup.priorityMeta {
        assert i == FirstMeta(setup, group);
        return group[i];
      }
      if ContainsChinese(group[i].name) && !ContainsChinese(best.name) {
        best := group[i];
        at := i;
      }
      i := i + 1;
    }
    assert group[..i] == group;
  }

  // First item after group[0] on a server with metadata priority; |group| if there is none. The first
  // item of the group is not asked.
  function FirstMeta(setup: Setup, group: seq<EmbyItem>): (i: nat)
    requires group != []
    ensures 1 <= i <= |group|
    ensures i < |group| ==> group[i].serverID in setup.priorityMeta
    ensures forall j | 1 <= j < i :: group[j].serverID !in setup.priorityMeta
    decreases |group|
  {
    if |group| == 1 then 1
    else
      var before := FirstMeta(setup, group[..|group| - 1]);
      if before < |group| - 1 then before
      else if group[|group| - 1].serverID in setup.priorityMeta then |group| - 1
      else |group|
  }

  function FirstChinese(group: seq<EmbyItem>): (i: nat)
    ensures i <= |group|
    ensures i < |group| ==> ContainsChinese(group[i].name)
    ensures forall j | 0 <= j < i :: !ContainsChinese(group[j].name)
  {
    if group == [] then 0
    else
      var before := FirstChinese(group[..|group| - 1]);
      if before < |group| - 1 then before
      else if ContainsChinese(group[|group| - 1].name) then |group| - 1
      else |group|
  }

  lemma FirstChineseOne(group: seq<EmbyItem>, item: EmbyItem)
    ensures var n := |group|;
            FirstChinese(group + [item]) ==
            if FirstChinese(group) < n then FirstChinese(group) else if ContainsChinese(item.name) then n else n + 1
  {
    assert (group + [item])[..|group|] == group;
  }

  // The one item a group is shown as: the first later one on a priority server, else the first with a
  // Chinese name, else the first.
  function PrimaryAt(setup: Setup, group: seq<EmbyItem>): (i: nat)
    requires group != []
    ensures i < |group|
  {
    var m, c := FirstMeta(setup, group), FirstChinese(group);
    if m < |group| then m else if c < |group| then c else 0
  }

  function Primary(setup: Setup, group: seq<EmbyItem>): (best: EmbyItem)
    requires group != []
    ensures best in group
  {
    group[PrimaryAt(setup, group)]
  }

  // When a group is shown as an item of a server with metadata priority: a later item is on one, or the
  // first is and no Chinese name further down takes its place.
  lemma ShownOnPriorityIff(setup: Setup, group: seq<EmbyItem>)
    requires group != []
    ensures Primary(setup, group).serverID in setup.priorityMeta <==>
            || (exists j :: 1 <= j < |group| && group[j].serverID in setup.priorityMeta)
            || (group[0].serverID in setup.priorityMeta &&
                (ContainsChinese(group[0].name) || forall j | 1 <= j < |group| :: !ContainsChinese(group[j].name)))
  {
    var m, c := FirstMeta(setup, group), FirstChinese(group);
    if m == |group| && c < |group| {
      assert c == 0 || group[c].serverID !in setup.priorityMeta;
    }
  }

  // So the only priority server of a group can be passed over, if its item comes first.
  lemma FirstPriorityPassedOver(lower: string -> string)
    ensures var here := EmbyItem(Null, "a", "Hero", "Movie", map[], [], 1);
            var there := EmbyItem(Null, "b", [0x82f1 as char, 0x96c4 as char], "Movie", map[], [], 2);
            var setup := Setup(map[], {1}, lower);
            Primary(setup, [here, there]) == there && there.serverID !in setup.priorityMeta
  {
    var name: string := [0x82f1 as char, 0x96c4 as char];
    var here := EmbyItem(Null, "a", "Hero", "Movie", map[], [], 1);
    var there := EmbyItem(Null, "b", name, "Movie", map[], [], 2);
    assert name[0] in name && ContainsChinese(name);
    assert !ContainsChinese("Hero");
    var setup := Setup(map[], {1}, lower);
    assert FirstMeta(setup, [here, there]) == 2;
    assert FirstChinese([here, there]) == 1;
  }

  // ---------- merging one group ----------

  predicate SameItem(a: EmbyItem, b: EmbyItem)
  {
    a.serverID == b.serverID && a.id == b.id
  }

  function OtherSources(group: seq<EmbyItem>, primary: EmbyItem): seq<MediaSource>
  {
    if group == [] then []
    else
      var before, last := OtherSources(group[..|group| - 1], primary), group[|group| - 1];
      if SameItem(last, primary) then before else before + last.mediaSources
  }

  lemma OtherSourcesOne(group: seq<EmbyItem>, item: EmbyItem, primary: EmbyItem)
    ensures OtherSources(group + [item], primary)
         == OtherSources(group, primary) + if SameItem(item, primary) then [] else item.mediaSources
  {
    assert (group + [item])[..|group|] == group;
  }

  // For each server the ID of its last item, the primary aside.
  function Others(group: seq<EmbyItem>, primary: EmbyItem): map<int, string>
  {
    if group == [] then map[]
    else
      var before, last := Others(group[..|group| - 1], primary), group[|group| - 1];
      if SameItem(last, primary) then before else before[last.serverID := last.id]
  }

  lemma OthersOne(group: seq<EmbyItem>, item: EmbyItem, primary: EmbyItem)
    ensures Others(group + [item], primary)
         == if SameItem(item, primary) then Others(group, primary) else Others(group, primary)[item.serverID := item.id]
  {
    assert (group + [item])[..|group|] == group;
  }

  function LastOther(group: seq<EmbyItem>, primary: EmbyItem, server: int): Option<string>
  {
    var others := Others(group, primary);
    if server in others then Some(others[server]) else None
  }

  lemma LastOtherOne(group: seq<EmbyItem>, item: EmbyItem, primary: EmbyItem, server: int)
    ensures LastOther(group + [item], primary, server)
         == if !SameItem(item, primary) && item.serverID == server then Some(item.id)
            else LastOther(group, primary, server)
  {
    OthersOne(group, item, primary);
  }

  // The item a group becomes: the primary, with everybody's sources in order. A group of one is left as it is.
  ghost predicate MergedFrom(setup: Setup, group: seq<EmbyItem>, m: EmbyItem)
  {
    group != [] &&
    if |group| == 1 then m == group[0]
    else
      var p := Primary(setup, group);
      && m == p.(mediaSources := m.mediaSources)
      && IsSorting(setup.codecPriority, p.mediaSources + OtherSources(group, p), m.mediaSources)
  }

  // The instances listed for an ID lead, on each server, to the last other item of these there.
  ghost predicate Listed(instances: seq<Instance>, group: seq<EmbyItem>, primary: EmbyItem)
  {
    ListsAll(instances, Others(group, primary))
  }

  ghost predicate ListsAll(instances: seq<Instance>, others: map<int, string>)
  {
    forall server | server in others ::
      var i := FindServer(instances, server); i < |instances| && instances[i].originalID == others[server]
  }

  // What the store knows of a merged group: the primary's ID, and its instances.
  ghost predicate Registered(s: State, setup: Setup, group: seq<EmbyItem>)
    requires group != []
  {
    var p := Primary(setup, group);
    && (p.id, p.serverID) in s.rmap
    && var v := s.rmap[(p.id, p.serverID)];
       v in s.cache && PairOf(s.cache[v]) == (p.id, p.serverID) && Listed(s.cache[v].instances, group, p)
  }

  lemma SetInstanceFinds(instances: seq<Instance>, inst: Instance, server: int)
    ensures var list := SetInstance(instances, inst);
            var i, j := FindServer(instances, server), FindServer(list, server);
            if server == inst.serverID then j < |list| && list[j] == inst
            else (i < |instances| <==> j < |list|) && (i < |instances| ==> list[j] == instances[i])
  {
    var list, at := SetInstance(instances, inst), FindServer(instances, inst.serverID);
    var i, j := FindServer(instances, server), FindServer(list, server);
    assert forall k | 0 <= k < |list| && k != at :: list[k] == instances[k];
    assert list[at] == inst;
    if server != inst.serverID {
      if i < |instances| {
        assert list[i] == instances[i];
      }
      if j < |list| {
        assert instances[j] == list[j];
      }
    }
  }

  lemma ListsOneMore(instances: seq<Instance>, others: map<int, string>, inst: Instance)
    requires ListsAll(instances, others)
    ensures ListsAll(SetInstance(instances, inst), others[inst.serverID := inst.originalID])
  {
    var list, now := SetInstance(instances, inst), others[inst.serverID := inst.originalID];
    forall server | server in now
      ensures var i := FindServer(list, server); i < |list| && list[i].originalID == now[server]
    {
      SetInstanceFinds(instances, inst, server);
    }
  }

  lemma ListedOne(instances: seq<Instance>, group: seq<EmbyItem>, item: EmbyItem, primary: EmbyItem, bitrate: int)
    requires Listed(instances, group, primary)
    ensures SameItem(item, primary) ==> Listed(instances, group + [item], primary)
    ensures !SameItem(item, primary) ==>
              Listed(SetInstance(instances, Instance(item.id, item.serverID, bitrate)), group + [item], primary)
  {
    OthersOne(group, item, primary);
    ListsOneMore(instances, Others(group, primary), Instance(item.id, item.serverID, bitrate));
  }

  // Everything but one ID's instances is as it was, and nothing is forgotten.
  ghost predicate KeepsOthers(s: State, t: State, v: string)
  {
    && (forall w | w in s.cache && w != v :: w in t.cache && t.cache[w] == s.cache[w])
    && (forall k | k in s.rmap :: k in t.rmap && t.rmap[k] == s.rmap[k])
  }

  // The store is reliable, and no statement has failed since.
  ghost predicate Working(store: Store, since: nat)
    reads store
  {
    store.Reliable() && store.Worked(since)
  }

  ghost predicate NamedAndListed(s: State, v: string, primary: EmbyItem, group: seq<EmbyItem>)
  {
    && (primary.id, primary.serverID) in s.rmap && s.rmap[(primary.id, primary.serverID)] == v
    && v in s.cache && PairOf(s.cache[v]) == (primary.id, primary.serverID) &&
       Listed(s.cache[v].instances, group, primary)
  }

  lemma RegisterStep(s: State, v: string, item: EmbyItem, primary: EmbyItem, group: seq<EmbyItem>, bitrate: int)
    requires NamedAndListed(s, v, primary, group) && !SameItem(item, primary)
    ensures var t := AddInstance(s, v, Instance(item.id, item.serverID, bitrate), true);
            NamedAndListed(t, v, primary, group + [item]) && KeepsOthers(s, t, v)
  {
    ListedOne(s.cache[v].instances, group, item, primary, bitrate);
  }

  // One round of the loop over a group, as far as the store is concerned.
  method RegisterOther(store: Store, virtualID: string, item: EmbyItem, primary: EmbyItem, ghost before: seq<EmbyItem>)
    requires store.Valid()
    modifies store.Repr
    ensures store.Valid() && store.Repr == old(store.Repr)
    ensures store.clock >= old(store.clock) && store.drawn >= old(store.drawn)
    ensures old(Coherent(store.Model())) ==> Coherent(store.Model()) && Grows(old(store.Model()), store.Model())
    ensures store.Worked(old(store.clock)) && NamedAndListed(old(store.Model()), virtualID, primary, before) ==>
              && NamedAndListed(store.Model(), virtualID, primary, before + [item])
              && KeepsOthers(old(store.Model()), store.Model(), virtualID)
  {
    if SameItem(item, primary) {
      if NamedAndListed(store.Model(), virtualID, primary, before) {
        ListedOne(store.Model().cache[virtualID].instances, before, item, primary, 0);
      }
      return;
    }
    var bitrate := MaxBitrate(item.mediaSources);
    if NamedAndListed(store.Model(), virtualID, primary, before) {
      RegisterStep(store.Model(), virtualID, item, primary, before, bitrate);
    }
    ghost var s := store.Model();
    var ok := store.AddInstance(virtualID, item.id, item.serverID, bitrate);
    if Coherent(s) {
      AddInstanceCoherent(s, virtualID, Instance(item.id, item.serverID, bitrate), ok);
    }
  }

  lemma KeepsOthersTransitive(s: State, t: State, u: State, v: string)
    requires KeepsOthers(s, t, v) && KeepsOthers(t, u, v)
    ensures KeepsOthers(s, u, v)
  {}

  // The primary gets its ID.
  method NamePrimary(store: Store, primary: EmbyItem) returns (virtualID: string)
    requires store.Valid()
    modifies store
    ensures store.Valid() && store.Repr >= old(store.Repr) && fresh(store.Repr - old(store.Repr))
    ensures store.clock >= old(store.clock) && store.drawn >= old(store.drawn)
    ensures store.Reliable() ==> Grows(old(store.Model()), store.Model())
    ensures Working(store, old(store.clock)) ==>
              && NamedAndListed(store.Model(), virtualID, primary, [])
              && KeepsOthers(old(store.Model()), store.Model(), virtualID)
  {
    virtualID := NameItem(store, primary.id, primary.serverID, primary.itemType);
  }

  // Where the loop over a group has got to: in the sources, and in the store.
  ghost predicate Collected(sources: seq<MediaSource>, seen: seq<EmbyItem>, primary: EmbyItem)
  {
    sources == AllSources(seen, primary)
  }

  function AllSources(group: seq<EmbyItem>, primary: EmbyItem): seq<MediaSource>
  {
    primary.mediaSources + OtherSources(group, primary)
  }

  function WithSources(sources: seq<MediaSource>, item: EmbyItem, primary: EmbyItem): seq<MediaSource>
  {
    if SameItem(item, primary) then sources else sources + item.mediaSources
  }

  lemma CollectedStep(sources: seq<MediaSource>, seen: seq<EmbyItem>, primary: EmbyItem, item: EmbyItem)
    requires Collected(sources, seen, primary)
    ensures Collected(WithSources(sources, item, primary), seen + [item], primary)
  {
    OtherSourcesOne(seen, item, primary);
  }

  ghost predicate Registering(start: State, t: State, v: string, primary: EmbyItem, seen: seq<EmbyItem>, working: bool)
  {
    && (Coherent(start) ==> Coherent(t) && Grows(start, t))
    && (working ==> NamedAndListed(t, v, primary, seen) && KeepsOthers(start, t, v))
  }

  lemma RegisteringStep(start: State, s: State, t: State, v: string, primary: EmbyItem,
                        seen: seq<EmbyItem>, item: EmbyItem, before: bool, working: bool)
    requires Registering(start, s, v, primary, seen, before) && (working ==> before)
    requires Coherent(s) ==> Coherent(t) && Grows(s, t)
    requires working && NamedAndListed(s, v, primary, seen) ==>
               NamedAndListed(t, v, primary, seen + [item]) && KeepsOthers(s, t, v)
    ensures Registering(start, t, v, primary, seen + [item], working)
  {
    if working {
      KeepsOthersTransitive(start, s, t, v);
    }
  }

  // The loop over a group: everybody's sources after the primary's, everybody's instance in the store.
  method AddOthers(store: Store, virtualID: string, primary: EmbyItem, group: seq<EmbyItem>)
      returns (sources: seq<MediaSource>)
    requires store.Valid()
    modifies store.Repr
    ensures store.Valid() && store.Repr == old(store.Repr)
    ensures store.clock >= old(store.clock) && store.drawn >= old(store.drawn)
    ensures Collected(sources, group, primary)
    ensures Registering(old(store.Model()), store.Model(), virtualID, primary, group,
                        old(NamedAndListed(store.Model(), virtualID, primary, [])) && store.Worked(old(store.clock)))
  {
    ghost var start, since := store.Model(), store.clock;
    ghost var named := NamedAndListed(start, virtualID, primary, []);
    ghost var seen: seq<EmbyItem> := [];
    sources := primary.mediaSources;
    for i := 0 to |group|
      invariant seen == group[..i]
      invariant store.Valid() && store.Repr == old(store.Repr)
      invariant store.clock >= since && store.drawn >= old(store.drawn)
      invariant Collected(sources, seen, primary)
      invariant Registering(start, store.Model(), virtualID, primary, seen, named && store.Worked(since))
    {
      ghost var s, c, worked := store.Model(), store.clock, store.Worked(since);
      var item := group[i];
      CollectedStep(sources, seen, primary, item);
      sources := WithSources(sources, item, primary);
      RegisterOther(store, virtualID, item, primary, seen);
      assert store.Worked(since) ==> worked && store.Worked(c);
      RegisteringStep(start, s, store.Model(), virtualID, primary, seen, item,
                      named && worked, named && store.Worked(since));
      seen := seen + [item];
    }
    assert seen == group;
  }

  // The store's part in merging a group.
  method RegisterGroup(store: Store, primary: EmbyItem, group: seq<EmbyItem>) returns (sources: seq<MediaSource>)
    requires store.Valid()
    modifies store.Repr
    ensures store.Valid() && store.Repr >= old(store.Repr) && fresh(store.Repr - old(store.Repr))
    ensures store.clock >= old(store.clock) && store.drawn >= old(store.drawn)
    ensures sources == primary.mediaSources + OtherSources(group, primary)
    ensures store.Reliable() ==> Grows(old(store.Model()), store.Model())
    ensures Working(store, old(store.clock)) ==> Stands(old(store.Model()), store.Model(), primary, group)
  {
    ghost var start, since := store.Model(), store.clock;
    var virtualID := NamePrimary(store, primary);
    ghost var s, c, working := store.Model(), store.clock, Working(store, since);
    ghost var reliable, named := store.Reliable(), NamedAndListed(s, virtualID, primary, []);
    sources := AddOthers(store, virtualID, primary, group);
    assert store.Reliable() ==> reliable;
    assert Working(store, since) ==> working && store.Worked(c);
    if store.Reliable() {
      StandsBy(start, s, store.Model(), virtualID, primary, group, named && store.Worked(c));
    }
  }

  // From one state to the next, a group has been registered under its primary and nothing else changed.
  ghost predicate Stands(s: State, t: State, primary: EmbyItem, group: seq<EmbyItem>)
  {
    && (primary.id, primary.serverID) in t.rmap
    && var v := t.rmap[(primary.id, primary.serverID)];
       NamedAndListed(t, v, primary, group) && KeepsOthers(s, t, v)
  }

  lemma StandsBy(start: State, s: State, t: State, v: string, primary: EmbyItem, group: seq<EmbyItem>, named: bool)
    requires Coherent(s) && Grows(start, s) && Registering(s, t, v, primary, group, named)
    ensures Grows(start, t)
    ensures named && KeepsOthers(start, s, v) ==> Stands(start, t, primary, group)
  {
    if named && KeepsOthers(start, s, v) {
      KeepsOthersTransitive(start, s, t, v);
    }
  }

  method MergeGroup(setup: Setup, store: Store, group: seq<EmbyItem>) returns (merged: EmbyItem)
    requires store.Valid() && group != []
    modifies store.Repr
    ensures store.Valid() && store.Repr >= old(store.Repr) && fresh(store.Repr - old(store.Repr))
    ensures store.clock >= old(store.clock) && store.drawn >= old(store.drawn)
    ensures MergedFrom(setup, group, merged)
    ensures store.Reliable() ==> Grows(old(store.Model()), store.Model())
    ensures Working(store, old(store.clock)) ==>
              if |group| == 1 then store.Model() == old(store.Model())
              else Stands(old(store.Model()), store.Model(), Primary(setup, group), group)
  {
    if |group| == 1 {
      return group[0];
    }
    var primary := SelectPrimary(setup, group);
    var sources := RegisterGroup(store, primary, group);
    var sorted := SortMediaSources(setup.codecPriority, sources);
    merged := primary.(mediaSources := sorted);
  }

  // ---------- all groups ----------

  // The result of dedup on a list of items: one item for every key, made from the key's group. Nothing
  // is said of its order, because the groups are visited in no fixed order.
  ghost predicate DedupOf(setup: Setup, items: seq<EmbyItem>, merged: seq<EmbyItem>)
  {
    && (forall m | m in merged :: MergedFrom(setup, GroupOf(setup.lower, items, BuildDedupKey(setup.lower, m)), m))
    && (forall i, j | 0 <= i < j < |merged| ::
          BuildDedupKey(setup.lower, merged[i]) != BuildDedupKey(setup.lower, merged[j]))
    && (forall key | HasKey(setup.lower, items, key) :: HasKey(setup.lower, merged, key))
  }

  ghost predicate DistinctItems(items: seq<EmbyItem>)
  {
    forall i, j | 0 <= i < j < |items| :: !SameItem(items[i], items[j])
  }

  // No two merged groups are shown as items of one server and ID.
  ghost predicate DistinctPrimaries(setup: Setup, items: seq<EmbyItem>)
  {
    forall k, l | k != l && |GroupOf(setup.lower, items, k)| > 1 && |GroupOf(setup.lower, items, l)| > 1 ::
      !SameItem(Primary(setup, GroupOf(setup.lower, items, k)), Primary(setup, GroupOf(setup.lower, items, l)))
  }

  lemma DistinctItemsPrimaries(setup: Setup, items: seq<EmbyItem>)
    requires DistinctItems(items)
    ensures DistinctPrimaries(setup, items)
  {
    forall k, l | k != l && |GroupOf(setup.lower, items, k)| > 1 && |GroupOf(setup.lower, items, l)| > 1
      ensures !SameItem(Primary(setup, GroupOf(setup.lower, items, k)), Primary(setup, GroupOf(setup.lower, items, l)))
    {
      PrimaryIsItem(setup, items, k);
      PrimaryIsItem(setup, items, l);
      OtherKeysOtherItems(setup.lower, items, Primary(setup, GroupOf(setup.lower, items, k)),
                          Primary(setup, GroupOf(setup.lower, items, l)));
    }
  }

  lemma PrimaryIsItem(setup: Setup, items: seq<EmbyItem>, key: string)
    requires GroupOf(setup.lower, items, key) != []
    ensures var p := Primary(setup, GroupOf(setup.lower, items, key));
            p in items && BuildDedupKey(setup.lower, p) == key
  {
    GroupMembers(setup.lower, items, key);
  }

  lemma OtherKeysOtherItems(lower: string -> string, items: seq<EmbyItem>, p: EmbyItem, q: EmbyItem)
    requires DistinctItems(items) && p in items && q in items && BuildDedupKey(lower, p) != BuildDedupKey(lower, q)
    ensures !SameItem(p, q)
  {
    var i :| 0 <= i < |items| && items[i] == p;
    var j :| 0 <= j < |items| && items[j] == q;
    assert !SameItem(items[if i < j then i else j], items[if i < j then j else i]);
  }

  lemma MergedKey(setup: Setup, items: seq<EmbyItem>, key: string, m: EmbyItem)
    requires MergedFrom(setup, GroupOf(setup.lower, items, key), m)
    ensures BuildDedupKey(setup.lower, m) == key
  {
    var group := GroupOf(setup.lower, items, key);
    GroupMembers(setup.lower, items, key);
    var p := if |group| == 1 then group[0] else Primary(setup, group);
    assert p in group;
  }

  ghost predicate Grouped(lower: string -> string, items: seq<EmbyItem>, groups: map<string, seq<EmbyItem>>)
  {
    && (forall key :: key in groups <==> GroupOf(lower, items, key) != [])
    && (forall key | key in groups :: groups[key] == GroupOf(lower, items, key))
  }

  lemma GroupedOne(lower: string -> string, items: seq<EmbyItem>, item: EmbyItem, groups: map<string, seq<EmbyItem>>,
                   groups': map<string, seq<EmbyItem>>, now: seq<EmbyItem>)
    requires Grouped(lower, items, groups) && now == items + [item]
    requires var key := BuildDedupKey(lower, item);
             groups' == groups[key := (if key in groups then groups[key] else []) + [item]]
    ensures Grouped(lower, now, groups')
  {
    forall k
      ensures k in groups' <==> GroupOf(lower, now, k) != []
      ensures k in groups' ==> groups'[k] == GroupOf(lower, now, k)
    {
      GroupOne(lower, items, item, k);
      assert k in groups <==> GroupOf(lower, items, k) != [];
    }
  }

  lemma GroupedKeys(lower: string -> string, items: seq<EmbyItem>, groups: map<string, seq<EmbyItem>>)
    requires Grouped(lower, items, groups)
    ensures forall key :: key in groups <==> HasKey(lower, items, key)
  {
    forall key
      ensures key in groups <==> HasKey(lower, items, key)
    {
      GroupMembers(lower, items, key);
    }
  }

  method GroupItems(lower: string -> string, items: seq<EmbyItem>) returns (groups: map<string, seq<EmbyItem>>)
    ensures Grouped(lower, items, groups)
    ensures forall key :: key in groups <==> HasKey(lower, items, key)
  {
    groups := map[];
    ghost var seen: seq<EmbyItem> := [];
    for i := 0 to |items|
      invariant seen == items[..i]
      invariant Grouped(lower, seen, groups)
    {
      var key := BuildDedupKey(lower, items[i]);
      ghost var before, was := seen, groups;
      seen := seen + [items[i]];
      groups := groups[key := (if key in groups then groups[key] else []) + [items[i]]];
      GroupedOne(lower, before, items[i], was, groups, seen);
    }
    assert seen == items;
    GroupedKeys(lower, items, groups);
  }

  // ---------- one group after the other ----------

  // The items made so far, from the groups of these keys.
  ghost predicate MadeFrom(setup: Setup, groups: map<string, seq<EmbyItem>>, keys: seq<string>, merged: seq<EmbyItem>)
  {
    && |keys| == |merged| && NoRepeats(keys)
    && forall i | 0 <= i < |keys| :: keys[i] in groups && MergedFrom(setup, groups[keys[i]], merged[i])
  }

  ghost predicate RegisteredFrom(s: State, setup: Setup, groups: map<string, seq<EmbyItem>>, keys: seq<string>)
  {
    forall key | key in keys && key in groups && |groups[key]| > 1 :: Registered(s, setup, groups[key])
  }

  ghost predicate PrimariesApart(setup: Setup, groups: map<string, seq<EmbyItem>>)
  {
    forall k, l | k in groups && l in groups && k != l && |groups[k]| > 1 && |groups[l]| > 1 ::
      !SameItem(Primary(setup, groups[k]), Primary(setup, groups[l]))
  }

  // Registering one more group leaves the ones before as they are: their primaries are other items.
  lemma RegisterOne(s: State, t: State, setup: Setup, groups: map<string, seq<EmbyItem>>, keys: seq<string>,
                    key: string)
    requires PrimariesApart(setup, groups) && Coherent(t) && RegisteredFrom(s, setup, groups, keys)
    requires key in groups && key !in keys
    requires if |groups[key]| <= 1 then t == s else Stands(s, t, Primary(setup, groups[key]), groups[key])
    ensures RegisteredFrom(t, setup, groups, keys + [key])
  {
    forall k | k in keys && k in groups && |groups[k]| > 1 && |groups[key]| > 1
      ensures Registered(t, setup, groups[k])
    {
      var p, q := Primary(setup, groups[key]), Primary(setup, groups[k]);
      assert (p.id, p.serverID) != (q.id, q.serverID);
      var w := s.rmap[(q.id, q.serverID)];
      assert t.rmap[(q.id, q.serverID)] == w;
      assert PairOf(t.cache[w]) == (q.id, q.serverID);
      assert t.cache[w] == s.cache[w];
    }
  }

  lemma MakeOne(setup: Setup, groups: map<string, seq<EmbyItem>>, keys: seq<string>, merged: seq<EmbyItem>,
                key: string, m: EmbyItem)
    requires MadeFrom(setup, groups, keys, merged) && key in groups && key !in keys
    requires MergedFrom(setup, groups[key], m)
    ensures MadeFrom(setup, groups, keys + [key], merged + [m])
  {}

  // Every group of more than one is in the store.
  ghost predicate AllRegistered(s: State, setup: Setup, items: seq<EmbyItem>)
  {
    forall key | |GroupOf(setup.lower, items, key)| > 1 :: Registered(s, setup, GroupOf(setup.lower, items, key))
  }

  lemma AllMade(setup: Setup, items: seq<EmbyItem>, groups: map<string, seq<EmbyItem>>, keys: seq<string>,
                merged: seq<EmbyItem>)
    requires Grouped(setup.lower, items, groups) && MadeFrom(setup, groups, keys, merged)
    requires forall key | key in groups :: key in keys
    ensures DedupOf(setup, items, merged)
  {
    forall i | 0 <= i < |merged|
      ensures BuildDedupKey(setup.lower, merged[i]) == keys[i]
      ensures MergedFrom(setup, GroupOf(setup.lower, items, keys[i]), merged[i])
    {
      MergedKey(setup, items, keys[i], merged[i]);
    }
    forall key | HasKey(setup.lower, items, key)
      ensures HasKey(setup.lower, merged, key)
    {
      GroupMembers(setup.lower, items, key);
      var i :| 0 <= i < |keys| && keys[i] == key;
      assert merged[i] in merged;
    }
  }

  lemma AllEntered(s: State, setup: Setup, items: seq<EmbyItem>, groups: map<string, seq<EmbyItem>>, keys: seq<string>)
    requires Grouped(setup.lower, items, groups) && RegisteredFrom(s, setup, groups, keys)
    requires forall key | key in groups :: key in keys
    ensures AllRegistered(s, setup, items)
  {
    forall key | |GroupOf(setup.lower, items, key)| > 1
      ensures Registered(s, setup, GroupOf(setup.lower, items, key))
    {
      assert key in groups && groups[key] == GroupOf(setup.lower, items, key);
    }
  }

  lemma GroupsApart(setup: Setup, items: seq<EmbyItem>, groups: map<string, seq<EmbyItem>>)
    requires Grouped(setup.lower, items, groups) && DistinctPrimaries(setup, items)
    ensures PrimariesApart(setup, groups)
  {
    forall k, l | k in groups && l in groups && k != l && |groups[k]| > 1 && |groups[l]| > 1
      ensures !SameItem(Primary(setup, groups[k]), Primary(setup, groups[l]))
    {
      assert groups[k] == GroupOf(setup.lower, items, k) && groups[l] == GroupOf(setup.lower, items, l);
    }
  }

  method Merge(setup: Setup, store: Store, items: seq<EmbyItem>) returns (merged: seq<EmbyItem>)
    requires store.Valid()
    modifies store.Repr
    ensures store.Valid() && store.Repr >= old(store.Repr) && fresh(store.Repr - old(store.Repr))
    ensures store.clock >= old(store.clock) && store.drawn >= old(store.drawn)
    ensures DedupOf(setup, items, merged)
    ensures store.Reliable() ==> Grows(old(store.Model()), store.Model())
    ensures Working(store, old(store.clock)) && (DistinctPrimaries(setup, items) || DistinctItems(items)) ==>
            AllRegistered(store.Model(), setup, items)
  {
    ghost var since := store.clock;
    if DistinctItems(items) {
      DistinctItemsPrimaries(setup, items);
    }
    var groups := GroupItems(setup.lower, items);
    ghost var keys;
    merged, keys := MergeGroups(setup, store, groups);
    AllMade(setup, items, groups, keys, merged);
    if Working(store, since) && DistinctPrimaries(setup, items) {
      GroupsApart(setup, items, groups);
      AllEntered(store.Model(), setup, items, groups, keys);
    }
  }

  // The loop over the groups, in the order of a Go map.
  method MergeGroups(setup: Setup, store: Store, groups: map<string, seq<EmbyItem>>)
      returns (merged: seq<EmbyItem>, ghost keys: seq<string>)
    requires store.Valid() && forall key | key in groups :: groups[key] != []
    modifies store.Repr
    ensures store.Valid() && store.Repr >= old(store.Repr) && fresh(store.Repr - old(store.Repr))
    ensures store.clock >= old(store.clock) && store.drawn >= old(store.drawn)
    ensures MadeFrom(setup, groups, keys, merged) && forall key | key in groups :: key in keys
    ensures store.Reliable() ==> Grows(old(store.Model()), store.Model())
    ensures Working(store, old(store.clock)) && PrimariesApart(setup, groups) ==>
              RegisteredFrom(store.Model(), setup, groups, keys)
  {
    ghost var start, since := store.Model(), store.clock;
    merged, keys := [], [];
    var pending := groups.Keys;
    while pending != {}
      invariant forall key | key in groups :: key in pending || key in keys
      invariant forall key | key in pending :: key in groups && key !in keys
      invariant store.Valid() && store.Repr >= old(store.Repr) && fresh(store.Repr - old(store.Repr))
      invariant store.clock >= since && store.drawn >= old(store.drawn)
      invariant MadeFrom(setup, groups, keys, merged)
      invariant store.Reliable() ==> Grows(start, store.Model())
      invariant Working(store, since) && PrimariesApart(setup, groups) ==>
          RegisteredFrom(store.Model(), setup, groups, keys)
      decreases pending
    {
      var key :| key in pending;
      ghost var s, c, reliable, worked := store.Model(), store.clock, store.Reliable(), store.Worked(since);
      var m := MergeGroup(setup, store, groups[key]);
      assert (store.Reliable() ==> reliable) && (store.Worked(since) ==> worked && store.Worked(c));
      if Working(store, since) && PrimariesApart(setup, groups) {
        RegisterOne(s, store.Model(), setup, groups, keys, key);
      }
      MakeOne(setup, groups, keys, merged, key, m);
      merged, keys := merged + [m], keys + [key];
      pending := pending - {key};
    }
  }
}
