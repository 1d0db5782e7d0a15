// What merging promises about its result, whatever order the groups were visited in.
module MergeResults {
  import opened Wrappers
  import opened Sequences
  import opened IdMap
  import opened JsonTree
  import opened MediaOrder
  import opened Dedup

  // ---------- which items belong together ----------

  datatype Identity = Tmdb(id: string) | Imdb(id: string) | Tvdb(id: string) | Named(name: string)

  // What an item is known by: the first provider ID it has, else its name in lower case.
  function IdentityOf(lower: string -> string, item: EmbyItem): Identity
  {
    if Provider(item, "Tmdb") != "" then Tmdb(Provider(item, "Tmdb"))
    else if Provider(item, "Imdb") != "" then Imdb(Provider(item, "Imdb"))
    else if Provider(item, "Tvdb") != "" then Tvdb(Provider(item, "Tvdb"))
    else Named(lower(item.name))
  }

  function Kind(identity: Identity): string
  {
    match identity
    case Tmdb(_) => "tmdb:"
    case Imdb(_) => "imdb:"
    case Tvdb(_) => "tvdb:"
    case Named(_) => "name:"
  }

  function Inner(identity: Identity): string
  {
    match identity
    case Tmdb(id) => id
    case Imdb(id) => id
    case Tvdb(id) => id
    case Named(name) => name
  }

  lemma KindsDiffer(a: Identity, b: Identity)
    requires Kind(a) == Kind(b)
    ensures Inner(a) == Inner(b) <==> a == b
  {
    assert Kind(a)[0] == Kind(b)[0] && Kind(a)[1] == Kind(b)[1];
  }

  lemma CutKind(a: Identity, x: string, b: Identity, y: string)
    ensures Kind(a) + x == Kind(b) + y <==> Kind(a) == Kind(b) && x == y
  {
    var s, t := Kind(a) + x, Kind(b) + y;
    assert s[..5] == Kind(a) && s[5..] == x && t[..5] == Kind(b) && t[5..] == y;
  }

  lemma KeyText(lower: string -> string, item: EmbyItem)
    ensures var i := IdentityOf(lower, item);
            BuildDedupKey(lower, item) == Kind(i) + (Inner(i) + ":" + item.itemType)
  {
    var i := IdentityOf(lower, item);
    assert BuildDedupKey(lower, item) == Kind(i) + Inner(i) + ":" + item.itemType;
  }

  // Items are merged exactly when they are known by the same kind of ID, and ID and type in a row read
  // the same. As long as types have no colons, that means: exactly when they agree in type and in what
  // they are known by. Two items that share an Imdb ID stay apart if only one of them has a Tmdb ID.
  lemma SameKeyIff(lower: string -> string, a: EmbyItem, b: EmbyItem)
    ensures var i, j := IdentityOf(lower, a), IdentityOf(lower, b);
            BuildDedupKey(lower, a) == BuildDedupKey(lower, b) <==>
            Kind(i) == Kind(j) && Inner(i) + ":" + a.itemType == Inner(j) + ":" + b.itemType
    ensures ':' !in a.itemType && ':' !in b.itemType ==>
              (BuildDedupKey(lower, a) == BuildDedupKey(lower, b) <==>
               a.itemType == b.itemType && IdentityOf(lower, a) == IdentityOf(lower, b))
  {
    var i, j := IdentityOf(lower, a), IdentityOf(lower, b);
    var x, y := Inner(i) + ":" + a.itemType, Inner(j) + ":" + b.itemType;
    KeyText(lower, a);
    KeyText(lower, b);
    CutKind(i, x, j, y);
    if Kind(i) == Kind(j) {
      KindsDiffer(i, j);
    }
    if x == y && ':' !in a.itemType && ':' !in b.itemType {
      SameLastColon(Inner(i), a.itemType, Inner(j), b.itemType);
    }
  }

  // The same film, known to both upstreams by its Imdb ID, once also by a Tmdb ID.
  lemma ImdbApart(lower: string -> string)
    ensures var one := EmbyItem(Null, "a", "Hero", "Movie", map["Imdb" := "tt1"], [], 1);
            var other := EmbyItem(Null, "b", "Hero", "Movie", map["Imdb" := "tt1", "Tmdb" := "1"], [], 2);
            BuildDedupKey(lower, one) != BuildDedupKey(lower, other)
  {
    var one := EmbyItem(Null, "a", "Hero", "Movie", map["Imdb" := "tt1"], [], 1);
    var other := EmbyItem(Null, "b", "Hero", "Movie", map["Imdb" := "tt1", "Tmdb" := "1"], [], 2);
    assert "Tmdb"[0] != "Imdb"[0];
    assert IdentityOf(lower, one) == Imdb("tt1") && IdentityOf(lower, other) == Tmdb("1");
    SameKeyIff(lower, one, other);
    assert Kind(Imdb("tt1"))[0] != Kind(Tmdb("1"))[0];
  }

  // A colon in a type can make two keys run together.
  lemma ColonInType()
    ensures BuildDedupKey(s => s, EmbyItem(Null, "1", "a", "b:c", map[], [], 1))
         == BuildDedupKey(s => s, EmbyItem(Null, "2", "a:b", "c", map[], [], 1))
  {
    assert "name:" + "a" + ":" + "b:c" == "name:a:b:c" == "name:" + "a:b" + ":" + "c";
  }

  // ---------- one item for each key; merging again changes nothing ----------

  ghost function KeySet(lower: string -> string, items: seq<EmbyItem>): set<string>
  {
    set item | item in items :: BuildDedupKey(lower, item)
  }

  lemma {:induction false} DistinctKeysCount(lower: string -> string, items: seq<EmbyItem>)
    requires forall i, j | 0 <= i < j < |items| :: BuildDedupKey(lower, items[i]) != BuildDedupKey(lower, items[j])
    ensures |KeySet(lower, items)| == |items|
  {
    if items != [] {
      var before, last := items[..|items| - 1], items[|items| - 1];
      DistinctKeysCount(lower, before);
      assert BuildDedupKey(lower, last) !in KeySet(lower, before);
      assert items == before + [last];
      assert KeySet(lower, items) == KeySet(lower, before) + {BuildDedupKey(lower, last)};
    }
  }

  lemma MergedKeys(setup: Setup, items: seq<EmbyItem>, merged: seq<EmbyItem>)
    requires DedupOf(setup, items, merged)
    ensures KeySet(setup.lower, merged) == KeySet(setup.lower, items)
  {
    forall key
      ensures key in KeySet(setup.lower, merged) <==> key in KeySet(setup.lower, items)
    {
      if key in KeySet(setup.lower, merged) {
        var m :| m in merged && BuildDedupKey(setup.lower, m) == key;
        GroupMembers(setup.lower, items, key);
        assert GroupOf(setup.lower, items, key) != [];
      } else if key in KeySet(setup.lower, items) {
        assert HasKey(setup.lower, items, key);
        assert false;
      }
    }
  }

  lemma OneItemForEachKey(setup: Setup, items: seq<EmbyItem>, merged: seq<EmbyItem>)
    requires DedupOf(setup, items, merged)
    ensures |merged| == |KeySet(setup.lower, items)|
    ensures KeySet(setup.lower, merged) == KeySet(setup.lower, items)
  {
    MergedKeys(setup, items, merged);
    DistinctKeysCount(setup.lower, merged);
  }

  // A group among items of different keys is one item.
  lemma {:induction false} GroupOfDistinct(lower: string -> string, items: seq<EmbyItem>, m: EmbyItem)
    requires forall i, j | 0 <= i < j < |items| :: BuildDedupKey(lower, items[i]) != BuildDedupKey(lower, items[j])
    requires m in items
    ensures GroupOf(lower, items, BuildDedupKey(lower, m)) == [m]
  {
    var before, last := items[..|items| - 1], items[|items| - 1];
    var key := BuildDedupKey(lower, m);
    GroupMembers(lower, before, key);
    if last == m {
      assert !HasKey(lower, before, key);
    } else {
      assert m in before;
      GroupOfDistinct(lower, before, m);
      var i :| 0 <= i < |before| && before[i] == m;
      assert items[i] == m;
    }
  }

  lemma MergingAgain(setup: Setup, items: seq<EmbyItem>, merged: seq<EmbyItem>, again: seq<EmbyItem>)
    requires DedupOf(setup, items, merged) && DedupOf(setup, merged, again)
    ensures multiset(again) == multiset(merged)
  {
    forall m
      ensures m in again <==> m in merged
    {
      var key := BuildDedupKey(setup.lower, m);
      if m in again {
        MergedKeys(setup, merged, again);
        assert key in KeySet(setup.lower, merged);
        var x :| x in merged && BuildDedupKey(setup.lower, x) == key;
        GroupOfDistinct(setup.lower, merged, x);
      }
      if m in merged {
        assert HasKey(setup.lower, merged, key);
        var x :| x in again && BuildDedupKey(setup.lower, x) == key;
        GroupOfDistinct(setup.lower, merged, m);
      }
    }
    SameElements(again, merged);
  }

  // ---------- no media source is lost or doubled ----------

  function SourcesOf(items: seq<EmbyItem>): multiset<MediaSource>
  {
    if items == [] then multiset{}
    else SourcesOf(items[..|items| - 1]) + multiset(items[|items| - 1].mediaSources)
  }

  lemma SourcesOne(items: seq<EmbyItem>, item: EmbyItem)
    ensures SourcesOf(items + [item]) == SourcesOf(items) + multiset(item.mediaSources)
  {
    assert (items + [item])[..|items|] == items;
  }

  // The sources of the items that merging takes for the primary itself.
  function SourcesOfSame(group: seq<EmbyItem>, primary: EmbyItem): multiset<MediaSource>
  {
    if group == [] then multiset{}
    else
      SourcesOfSame(group[..|group| - 1], primary)
      + if SameItem(group[|group| - 1], primary) then multiset(group[|group| - 1].mediaSources) else multiset{}
  }

  lemma {:induction false} GroupSources(group: seq<EmbyItem>, primary: EmbyItem)
    ensures SourcesOf(group) == SourcesOfSame(group, primary) + multiset(OtherSources(group, primary))
  {
    if group != [] {
      GroupSources(group[..|group| - 1], primary);
    }
  }

  // Of those, all but the primary's own get lost.
  function Lost(setup: Setup, group: seq<EmbyItem>): multiset<MediaSource>
  {
    if |group| <= 1 then multiset{}
    else SourcesOfSame(group, Primary(setup, group)) - multiset(Primary(setup, group).mediaSources)
  }

  lemma {:induction false} SameHoldsPrimary(group: seq<EmbyItem>, primary: EmbyItem)
    requires primary in group
    ensures multiset(primary.mediaSources) <= SourcesOfSame(group, primary)
  {
    var before, last := group[..|group| - 1], group[|group| - 1];
    if last != primary {
      assert group == before + [last];
      SameHoldsPrimary(before, primary);
    }
  }

  lemma MergedSources(setup: Setup, group: seq<EmbyItem>, m: EmbyItem)
    requires MergedFrom(setup, group, m)
    ensures SourcesOf(group) == multiset(m.mediaSources) + Lost(setup, group)
  {
    if |group| == 1 {
      assert SourcesOf(group[..0]) == multiset{};
    } else {
      var p := Primary(setup, group);
      GroupSources(group, p);
      SameHoldsPrimary(group, p);
    }
  }

  function SumAll<T>(parts: seq<multiset<T>>): multiset<T>
  {
    if parts == [] then multiset{} else SumAll(parts[..|parts| - 1]) + parts[|parts| - 1]
  }

  function Losses(setup: Setup, items: seq<EmbyItem>, merged: seq<EmbyItem>): (losses: seq<multiset<MediaSource>>)
    ensures |losses| == |merged|
  {
    seq(|merged|, i requires 0 <= i < |merged| =>
      Lost(setup, GroupOf(setup.lower, items, BuildDedupKey(setup.lower, merged[i]))))
  }

  function LostOverall(setup: Setup, items: seq<EmbyItem>, merged: seq<EmbyItem>): multiset<MediaSource>
  {
    SumAll(Losses(setup, items, merged))
  }

  lemma LostOverallOne(setup: Setup, items: seq<EmbyItem>, merged: seq<EmbyItem>, m: EmbyItem)
    ensures LostOverall(setup, items, merged + [m])
         == LostOverall(setup, items, merged) + Lost(setup, GroupOf(setup.lower, items, BuildDedupKey(setup.lower, m)))
  {
    var losses := Losses(setup, items, merged + [m]);
    assert losses[..|merged|] == Losses(setup, items, merged);
  }

  function GroupsSources(lower: string -> string, items: seq<EmbyItem>, merged: seq<EmbyItem>): multiset<MediaSource>
  {
    if merged == [] then multiset{}
    else
      GroupsSources(lower, items, merged[..|merged| - 1])
      + SourcesOf(GroupOf(lower, items, BuildDedupKey(lower, merged[|merged| - 1])))
  }

  lemma GroupSourcesOne(lower: string -> string, items: seq<EmbyItem>, item: EmbyItem, key: string)
    ensures SourcesOf(GroupOf(lower, items + [item], key)) == SourcesOf(GroupOf(lower, items, key)) +
            if BuildDedupKey(lower, item) == key then multiset(item.mediaSources) else multiset{}
  {
    GroupOne(lower, items, item, key);
    SourcesOne(GroupOf(lower, items, key), item);
  }

  lemma HasKeyOne(lower: string -> string, before: seq<EmbyItem>, last: EmbyItem, key: string)
    ensures HasKey(lower, before + [last], key) <==> HasKey(lower, before, key) || BuildDedupKey(lower, last) == key
  {
    var all := before + [last];
    assert all[|before|] == last;
    assert forall x | x in before :: x in all;
  }

  // One item more adds its sources to the one group it belongs to.
  lemma {:induction false} GroupsSourcesOne(lower: string -> string, items: seq<EmbyItem>, item: EmbyItem,
                                            merged: seq<EmbyItem>)
    requires forall i, j | 0 <= i < j < |merged| :: BuildDedupKey(lower, merged[i]) != BuildDedupKey(lower, merged[j])
    ensures GroupsSources(lower, items + [item], merged) == GroupsSources(lower, items, merged) +
            if HasKey(lower, merged, BuildDedupKey(lower, item)) then multiset(item.mediaSources) else multiset{}
  {
    if merged != [] {
      var before, last := merged[..|merged| - 1], merged[|merged| - 1];
      var key := BuildDedupKey(lower, last);
      assert merged == before + [last];
      GroupsSourcesOne(lower, items, item, before);
      GroupSourcesOne(lower, items, item, key);
      HasKeyOne(lower, before, last, BuildDedupKey(lower, item));
      assert !HasKey(lower, before, key) by {
        assert forall i | 0 <= i < |before| :: BuildDedupKey(lower, merged[i]) != key;
      }
    }
  }

  lemma {:induction false} GroupsOfNothing(lower: string -> string, merged: seq<EmbyItem>)
    ensures GroupsSources(lower, [], merged) == multiset{}
  {
    if merged != [] {
      GroupsOfNothing(lower, merged[..|merged| - 1]);
    }
  }

  lemma {:induction false} GroupsSourcesAll(lower: string -> string, items: seq<EmbyItem>, merged: seq<EmbyItem>)
    requires forall i, j | 0 <= i < j < |merged| :: BuildDedupKey(lower, merged[i]) != BuildDedupKey(lower, merged[j])
    requires forall key | HasKey(lower, items, key) :: HasKey(lower, merged, key)
    ensures GroupsSources(lower, items, merged) == SourcesOf(items)
  {
    if items == [] {
      GroupsOfNothing(lower, merged);
    } else {
      var before, last := items[..|items| - 1], items[|items| - 1];
      assert items == before + [last];
      forall key | HasKey(lower, before, key)
        ensures HasKey(lower, merged, key)
      {
        var x :| x in before && BuildDedupKey(lower, x) == key;
        assert x in items;
        assert HasKey(lower, items, key);
      }
      GroupsSourcesAll(lower, before, merged);
      GroupsSourcesOne(lower, before, last, merged);
      assert last in items && HasKey(lower, items, BuildDedupKey(lower, last));
    }
  }

  lemma {:induction false} MergedAndLost(setup: Setup, items: seq<EmbyItem>, merged: seq<EmbyItem>)
    requires forall m | m in merged :: MergedFrom(setup, GroupOf(setup.lower, items, BuildDedupKey(setup.lower, m)), m)
    ensures GroupsSources(setup.lower, items, merged) == SourcesOf(merged) + LostOverall(setup, items, merged)
  {
    if merged != [] {
      var before, last := merged[..|merged| - 1], merged[|merged| - 1];
      assert merged == before + [last];
      MergedAndLost(setup, items, before);
      LostOverallOne(setup, items, before, last);
      MergedSources(setup, GroupOf(setup.lower, items, BuildDedupKey(setup.lower, last)), last);
    }
  }

  // The exact account on all inputs: every source of the input is in the result, except those of items
  // that share server and ID with their group's primary without being it.
  lemma SourcesAccounted(setup: Setup, items: seq<EmbyItem>, merged: seq<EmbyItem>)
    requires DedupOf(setup, items, merged)
    ensures SourcesOf(items) == SourcesOf(merged) + LostOverall(setup, items, merged)
    ensures SourcesOf(items) == SourcesOf(merged) <==> LostOverall(setup, items, merged) == multiset{}
  {
    GroupsSourcesAll(setup.lower, items, merged);
    MergedAndLost(setup, items, merged);
    assert SourcesOf(items) == SourcesOf(merged) ==> forall x :: LostOverall(setup, items, merged)[x] == 0;
  }

  // Some other item of the group passes for the primary, and its sources are left behind.
  ghost predicate Shadowed(setup: Setup, group: seq<EmbyItem>, i: nat)
  {
    && |group| > 1 && i < |group| && i != PrimaryAt(setup, group)
    && SameItem(group[i], Primary(setup, group)) && group[i].mediaSources != []
  }

  lemma {:induction false} SameSourcesConcat(a: seq<EmbyItem>, b: seq<EmbyItem>, primary: EmbyItem)
    ensures SourcesOfSame(a + b, primary) == SourcesOfSame(a, primary) + SourcesOfSame(b, primary)
  {
    if b == [] {
      assert a + b == a;
    } else {
      var before, last := b[..|b| - 1], b[|b| - 1];
      assert (a + b)[..|a + b| - 1] == a + before && (a + b)[|a + b| - 1] == last;
      SameSourcesConcat(a, before, primary);
    }
  }

  lemma {:induction false} NoSameSources(group: seq<EmbyItem>, primary: EmbyItem)
    ensures SourcesOfSame(group, primary) == multiset{} <==>
            forall i | 0 <= i < |group| && SameItem(group[i], primary) :: group[i].mediaSources == []
  {
    if group != [] {
      var before, last := group[..|group| - 1], group[|group| - 1];
      NoSameSources(before, primary);
      var own := if SameItem(last, primary) then multiset(last.mediaSources) else multiset{};
      SumEmpty(SourcesOfSame(before, primary), own);
      NoElements(last.mediaSources);
      assert forall i | 0 <= i < |before| :: group[i] == before[i];
    }
  }

  lemma SumEmpty<T>(a: multiset<T>, b: multiset<T>)
    ensures a + b == multiset{} <==> a == multiset{} && b == multiset{}
  {
    if a + b == multiset{} {
      forall x
        ensures a[x] == 0 && b[x] == 0
      {
        assert (a + b)[x] == 0;
      }
    }
  }

  lemma NoElements<T>(s: seq<T>)
    ensures multiset(s) == multiset{} <==> s == []
  {
    if s != [] {
      assert s[0] in multiset(s);
    }
  }

  lemma NothingLostIff(setup: Setup, group: seq<EmbyItem>)
    ensures Lost(setup, group) == multiset{} <==> forall i: nat :: !Shadowed(setup, group, i)
  {
    if |group| > 1 {
      var at, p := PrimaryAt(setup, group), Primary(setup, group);
      var before, behind := group[..at], group[at + 1..];
      assert group == before + ([p] + behind);
      SameSourcesConcat(before, [p] + behind, p);
      SameSourcesConcat([p], behind, p);
      assert SourcesOfSame([p], p) == multiset(p.mediaSources) by {
        assert [p][..0] == [];
      }
      var others := SourcesOfSame(before, p) + SourcesOfSame(behind, p);
      assert SourcesOfSame(group, p) == others + multiset(p.mediaSources);
      assert Lost(setup, group) == others;
      SumEmpty(SourcesOfSame(before, p), SourcesOfSame(behind, p));
      NoSameSources(before, p);
      NoSameSources(behind, p);
      ShadowedParts(setup, group);
    }
  }

  lemma ShadowedParts(setup: Setup, group: seq<EmbyItem>)
    requires |group| > 1
    ensures var at, p := PrimaryAt(setup, group), Primary(setup, group);
            var before, behind := group[..at], group[at + 1..];
            (forall i: nat :: !Shadowed(setup, group, i)) <==>
            && (forall i | 0 <= i < |before| && SameItem(before[i], p) :: before[i].mediaSources == [])
            && (forall i | 0 <= i < |behind| && SameItem(behind[i], p) :: behind[i].mediaSources == [])
  {
    var at, p := PrimaryAt(setup, group), Primary(setup, group);
    var before, behind := group[..at], group[at + 1..];
    if forall i: nat :: !Shadowed(setup, group, i) {
      forall i | 0 <= i < |before| && SameItem(before[i], p)
        ensures before[i].mediaSources == []
      {
        assert !Shadowed(setup, group, i);
      }
      forall i | 0 <= i < |behind| && SameItem(behind[i], p)
        ensures behind[i].mediaSources == []
      {
        assert !Shadowed(setup, group, at + 1 + i);
      }
    } else {
      var i: nat :| Shadowed(setup, group, i);
      assert if i < at then before[i] == group[i] else behind[i - at - 1] == group[i];
    }
  }

  lemma {:induction false} SumAllEmpty<T>(parts: seq<multiset<T>>)
    ensures SumAll(parts) == multiset{} <==> forall i | 0 <= i < |parts| :: parts[i] == multiset{}
  {
    if parts != [] {
      var before, last := parts[..|parts| - 1], parts[|parts| - 1];
      SumAllEmpty(before);
      SumEmpty(SumAll(before), last);
      assert parts == before + [last];
    }
  }

  // In no group does an item with sources pass for the primary without being it.
  ghost predicate NoneShadowed(setup: Setup, items: seq<EmbyItem>)
  {
    forall key, i: nat :: !Shadowed(setup, GroupOf(setup.lower, items, key), i)
  }

  lemma NoneShadowedNoLoss(setup: Setup, items: seq<EmbyItem>, merged: seq<EmbyItem>)
    requires NoneShadowed(setup, items)
    ensures forall at | 0 <= at < |merged| :: Losses(setup, items, merged)[at] == multiset{}
  {
    forall at | 0 <= at < |merged|
      ensures Losses(setup, items, merged)[at] == multiset{}
    {
      var key := BuildDedupKey(setup.lower, merged[at]);
      NothingLostIff(setup, GroupOf(setup.lower, items, key));
    }
  }

  lemma ShadowedLoses(setup: Setup, items: seq<EmbyItem>, merged: seq<EmbyItem>)
    requires DedupOf(setup, items, merged) && !NoneShadowed(setup, items)
    ensures exists at :: 0 <= at < |merged| && Losses(setup, items, merged)[at] != multiset{}
  {
    var key, i: nat :| Shadowed(setup, GroupOf(setup.lower, items, key), i);
    var group := GroupOf(setup.lower, items, key);
    GroupMembers(setup.lower, items, key);
    assert HasKey(setup.lower, merged, key);
    var m :| m in merged && BuildDedupKey(setup.lower, m) == key;
    var at :| 0 <= at < |merged| && merged[at] == m;
    NothingLostIff(setup, group);
    assert Losses(setup, items, merged)[at] == Lost(setup, group);
  }

  // Merging conserves the media sources exactly if none are shadowed.
  lemma SourcesConservedIff(setup: Setup, items: seq<EmbyItem>, merged: seq<EmbyItem>)
    requires DedupOf(setup, items, merged)
    ensures SourcesOf(merged) == SourcesOf(items) <==> NoneShadowed(setup, items)
  {
    SourcesAccounted(setup, items, merged);
    SumAllEmpty(Losses(setup, items, merged));
    if NoneShadowed(setup, items) {
      NoneShadowedNoLoss(setup, items, merged);
    } else {
      ShadowedLoses(setup, items, merged);
    }
  }

  // In particular if no group has two items of one server and ID.
  lemma SourcesConserved(setup: Setup, items: seq<EmbyItem>, merged: seq<EmbyItem>)
    requires DedupOf(setup, items, merged)
    requires forall key :: DistinctItems(GroupOf(setup.lower, items, key))
    ensures SourcesOf(merged) == SourcesOf(items)
  {
    SourcesConservedIff(setup, items, merged);
    forall key, i: nat
      ensures !Shadowed(setup, GroupOf(setup.lower, items, key), i)
    {
      assert DistinctItems(GroupOf(setup.lower, items, key));
    }
  }

  // It happens when an upstream lists an item twice, with different sources.
  const LISTED := EmbyItem(Null, "a", "Hero", "Movie", map[], [MediaSource("x", 1, 0, 0, "", 0, 0, 1, "a")], 1)
  const AGAIN := LISTED.(mediaSources := [MediaSource("y", 2, 0, 0, "", 0, 0, 1, "a")])

  lemma ListedTogether(lower: string -> string)
    ensures GroupOf(lower, [LISTED, AGAIN], BuildDedupKey(lower, LISTED)) == [LISTED, AGAIN]
  {
    var key := BuildDedupKey(lower, LISTED);
    GroupOne(lower, [], LISTED, key);
    GroupOne(lower, [LISTED], AGAIN, key);
    assert [] + [LISTED] == [LISTED] && [LISTED] + [AGAIN] == [LISTED, AGAIN];
  }

  lemma ListedShadowed(lower: string -> string)
    ensures Shadowed(Setup(map[], {}, lower), [LISTED, AGAIN], 1)
  {
    var setup, group := Setup(map[], {}, lower), [LISTED, AGAIN];
    assert !ContainsChinese("Hero");
    assert FirstMeta(setup, group) == 2 && FirstChinese(group) == 2;
  }

  lemma TwiceListedLosesSource(lower: string -> string, merged: seq<EmbyItem>)
    requires DedupOf(Setup(map[], {}, lower), [LISTED, AGAIN], merged)
    ensures SourcesOf(merged) != SourcesOf([LISTED, AGAIN])
  {
    var setup, items := Setup(map[], {}, lower), [LISTED, AGAIN];
    ListedTogether(lower);
    ListedShadowed(lower);
    assert !NoneShadowed(setup, items);
    SourcesConservedIff(setup, items, merged);
  }

  // ---------- where a merged item's ID leads ----------

  // The last item of the group on a server.
  ghost predicate LastOn(group: seq<EmbyItem>, server: int, id: string)
  {
    exists i :: 0 <= i < |group| && group[i].serverID == server && group[i].id == id
             && forall j | i < j < |group| :: group[j].serverID != server
  }

  lemma LastOnOne(group: seq<EmbyItem>, item: EmbyItem, server: int, id: string)
    ensures item.serverID == server && item.id == id ==> LastOn(group + [item], server, id)
    ensures item.serverID != server && LastOn(group, server, id) ==> LastOn(group + [item], server, id)
  {
    var now := group + [item];
    if item.serverID == server && item.id == id {
      assert now[|group|] == item;
    } else if item.serverID != server && LastOn(group, server, id) {
      var i :| 0 <= i < |group| && group[i].serverID == server && group[i].id == id
            && forall j | i < j < |group| :: group[j].serverID != server;
      assert now[i] == group[i];
    }
  }

  lemma {:induction false} LastOtherIsLast(group: seq<EmbyItem>, primary: EmbyItem, server: int)
    requires server != primary.serverID
    ensures LastOther(group, primary, server).Some? <==> exists x | x in group :: x.serverID == server
    ensures LastOther(group, primary, server).Some? ==> LastOn(group, server, LastOther(group, primary, server).value)
  {
    if group != [] {
      var before, last := group[..|group| - 1], group[|group| - 1];
      assert group == before + [last];
      LastOtherIsLast(before, primary, server);
      LastOtherOne(before, last, primary, server);
      var found := LastOther(group, primary, server);
      if found.Some? {
        LastOnOne(before, last, server, found.value);
      }
    }
  }

  // After merging, the ID of a merged group leads every server with an item in the group to an item of
  // the group there: the primary on its own server, the last one on every other.
  lemma MergedIdLeads(s: State, setup: Setup, group: seq<EmbyItem>, server: int, rowsOk: bool)
    requires Coherent(s) && |group| > 1 && Registered(s, setup, group)
    requires exists x | x in group :: x.serverID == server
    ensures var p := Primary(setup, group);
            var original := OriginalForUpstream(s, s.rmap[(p.id, p.serverID)], server, true, rowsOk);
            original.Some? &&
            if server == p.serverID then original.value == p.id else LastOn(group, server, original.value)
  {
    var p := Primary(setup, group);
    if server != p.serverID {
      LastOtherIsLast(group, p, server);
    }
  }
}
