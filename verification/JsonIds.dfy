// Renaming the IDs in a JSON body: the walkers of internal/proxy/json_ids.go and of
// internal/aggregator/aggregator.go. Both overwrite the strings at ID places of a freshly decoded
// tree while the store grows; what a walk leaves is described by one relation between the two trees.
module JsonIds {
  import opened Wrappers
  import opened Text
  import opened JsonTree
  import opened IdMap
  import opened IdStore

  const ID_FIELDS: set<string> := {
    "Id", "SeriesId", "SeasonId", "ParentId", "AlbumId", "ChannelId", "ItemId", "MediaSourceId", "ProgramId",
    "RecordingId", "UserId", "ParentBackdropItemId", "PrimaryImageItemId", "ThumbItemId", "LogoItemId",
    "BackdropItemId", "ArtistId", "SeasonItemId", "SeriesPrimaryImageTag"
  }

  const ID_ARRAY_FIELDS: set<string> := { "AncestorIds", "AdditionalPartIds", "ItemIds" }

  const AGGREGATOR_FIELDS: seq<string> := ["Id", "SeriesId", "SeasonId", "ParentId", "AlbumId", "ChannelId", "ItemId"]

  predicate ShouldRewriteScalarKey(key: string)
  {
    key in ID_FIELDS || HasSuffix(key, "ItemId") || HasSuffix(key, "SeriesId") || HasSuffix(key, "SeasonId")
  }

  predicate ShouldRewriteArrayKey(key: string)
  {
    key in ID_ARRAY_FIELDS || HasSuffix(key, "Ids")
  }

  // ---------- which strings a walker rewrites ----------

  datatype Walker = Proxy | Aggregator

  predicate ScalarKey(w: Walker, key: string)
  {
    match w
    case Proxy => ShouldRewriteScalarKey(key)
    case Aggregator => key in AGGREGATOR_FIELDS
  }

  predicate ArrayKey(w: Walker, key: string)
  {
    w.Proxy? && ShouldRewriteArrayKey(key)
  }

  // The place ends in a scalar ID key, or is an element of the array under an array ID key.
  predicate IdPlace(w: Walker, path: seq<Hop>)
    decreases |path|
  {
    if |path| == 0 then false
    else if |path| == 1 then path[0].Member? && ScalarKey(w, path[0].key)
    else if |path| == 2 && path[0].Member? && path[1].Element? then ArrayKey(w, path[0].key)
    else IdPlace(w, path[1..])
  }

  lemma {:induction false} AggregatorPlacesAreProxyPlaces(path: seq<Hop>)
    requires IdPlace(Aggregator, path)
    ensures IdPlace(Proxy, path)
    decreases |path|
  {
    if |path| > 1 {
      AggregatorPlacesAreProxyPlaces(path[1..]);
    }
  }

  // ---------- what happens to one string ----------

  // Texts in kept are left alone when virtualising: the empty string, and for the proxy its own user ID.
  datatype Rewrite = Virtualize(serverID: int, kept: set<string>) | Devirtualize(upstreamID: int)

  // One string's rewriting as seen from a store state; faulty if a statement may have failed.
  datatype Rel = Rel(s: State, rewrite: Rewrite, faulty: bool)

  function Undo(s: State, upstreamID: int, x: string, rowsOk: bool): string
  {
    match OriginalForUpstream(s, x, upstreamID, true, rowsOk)
    case Some(original) => original
    case None => x
  }

  ghost predicate Holds(r: Rel, x: string, y: string)
  {
    match r.rewrite
    case Virtualize(serverID, kept) =>
      if x in kept then y == x
      else Named(r.s, x, serverID, r.faulty, y)
    case Devirtualize(upstreamID) =>
      y == Undo(r.s, upstreamID, x, true) || (r.faulty && y == Undo(r.s, upstreamID, x, false))
  }

  // ---------- what happens to a tree ----------

  ghost predicate Rewritten(w: Walker, r: Rel, t: Json, u: Json)
    decreases t, 0
  {
    match t
    case Object(members) =>
      && u.Object? && u.members.Keys == members.Keys
      && forall key | key in members :: MemberRewritten(w, r, key, members[key], u.members[key])
    case Array(elements) =>
      && u.Array? && |u.elements| == |elements|
      && forall i | 0 <= i < |elements| :: Rewritten(w, r, elements[i], u.elements[i])
    case _ => u == t
  }

  ghost predicate MemberRewritten(w: Walker, r: Rel, key: string, v: Json, v': Json)
    decreases v, 1
  {
    if v.Str? && ScalarKey(w, key) then v'.Str? && Holds(r, v.text, v'.text)
    else if v.Array? && ArrayKey(w, key) then
      && v'.Array? && |v'.elements| == |v.elements|
      && forall i | 0 <= i < |v.elements| :: ElementRewritten(w, r, v.elements[i], v'.elements[i])
    else Rewritten(w, r, v, v')
  }

  // An element of an ID array.
  ghost predicate ElementRewritten(w: Walker, r: Rel, v: Json, v': Json)
    decreases v, 1
  {
    if v.Str? then v'.Str? && Holds(r, v.text, v'.text) else Rewritten(w, r, v, v')
  }

  ghost predicate Weaker(r: Rel, r': Rel)
  {
    forall x, y :: Holds(r, x, y) ==> Holds(r', x, y)
  }

  lemma {:induction false} RewrittenWeaker(w: Walker, r: Rel, r': Rel, t: Json, u: Json)
    requires Weaker(r, r') && Rewritten(w, r, t, u)
    ensures Rewritten(w, r', t, u)
    decreases t, 0
  {
    match t
    case Object(members) =>
      forall key | key in members
        ensures MemberRewritten(w, r', key, members[key], u.members[key])
      {
        MemberWeaker(w, r, r', key, members[key], u.members[key]);
      }
    case Array(elements) =>
      forall i | 0 <= i < |elements|
        ensures Rewritten(w, r', elements[i], u.elements[i])
      {
        RewrittenWeaker(w, r, r', elements[i], u.elements[i]);
      }
    case _ =>
  }

  lemma {:induction false} MemberWeaker(w: Walker, r: Rel, r': Rel, key: string, v: Json, v': Json)
    requires Weaker(r, r') && MemberRewritten(w, r, key, v, v')
    ensures MemberRewritten(w, r', key, v, v')
    decreases v, 1
  {
    if v.Str? && ScalarKey(w, key) {
    } else if v.Array? && ArrayKey(w, key) {
      forall i | 0 <= i < |v.elements|
        ensures ElementRewritten(w, r', v.elements[i], v'.elements[i])
      {
        ElementWeaker(w, r, r', v.elements[i], v'.elements[i]);
      }
    } else {
      RewrittenWeaker(w, r, r', v, v');
    }
  }

  lemma {:induction false} ElementWeaker(w: Walker, r: Rel, r': Rel, v: Json, v': Json)
    requires Weaker(r, r') && ElementRewritten(w, r, v, v')
    ensures ElementRewritten(w, r', v, v')
    decreases v, 1
  {
    if !v.Str? {
      RewrittenWeaker(w, r, r', v, v');
    }
  }

  // ---------- the same, place by place ----------

  ghost predicate NodeRewritten(idPlace: bool, r: Rel, n: Option<Node>, n': Option<Node>)
  {
    if idPlace && n.Some? && n.value.Scalar? && n.value.value.Str? then
      && n'.Some? && n'.value.Scalar? && n'.value.value.Str?
      && Holds(r, n.value.value.text, n'.value.value.text)
    else n' == n
  }

  // A walk changes the strings at ID places, as one string's rewriting says, and nothing else.
  lemma {:induction false} RewrittenAt(w: Walker, r: Rel, t: Json, u: Json, path: seq<Hop>)
    requires Rewritten(w, r, t, u)
    ensures NodeRewritten(IdPlace(w, path), r, Look(t, path), Look(u, path))
    decreases |path|, t
  {
    if path != [] {
      match (path[0], t)
      case (Member(key), Object(members)) =>
        if key in members {
          MemberRewrittenAt(w, r, key, members[key], u.members[key], path);
        }
      case (Element(i), Array(elements)) =>
        if i < |elements| {
          RewrittenAt(w, r, elements[i], u.elements[i], path[1..]);
          assert |path| == 1 ==> !IdPlace(w, path) && elements[i].Str? ==> u.elements[i] == elements[i];
        }
      case _ =>
    }
  }

  lemma {:induction false} MemberRewrittenAt(w: Walker, r: Rel, key: string, v: Json, v': Json, path: seq<Hop>)
    requires path != [] && path[0] == Member(key) && MemberRewritten(w, r, key, v, v')
    ensures NodeRewritten(IdPlace(w, path), r, Look(v, path[1..]), Look(v', path[1..]))
    decreases |path|, v, 0
  {
    if v.Str? && ScalarKey(w, key) {
    } else if v.Array? && ArrayKey(w, key) {
      if |path| > 1 && path[1].Element? && path[1].index < |v.elements| {
        var e, e' := v.elements[path[1].index], v'.elements[path[1].index];
        assert Look(v, path[1..]) == Look(e, path[1..][1..]) && Look(v', path[1..]) == Look(e', path[1..][1..]);
        if |path| == 2 {
          assert IdPlace(w, path);
          if !e.Str? {
            RewrittenAt(w, r, e, e', []);
          }
        } else {
          assert IdPlace(w, path) == IdPlace(w, path[1..][1..]);
          if !e.Str? {
            RewrittenAt(w, r, e, e', path[1..][1..]);
          }
        }
      }
    } else {
      RewrittenAt(w, r, v, v', path[1..]);
    }
  }

  // ---------- going there and back ----------

  // Undoing leaves the text alone: it is no virtual ID, or one that names itself.
  predicate Safe(s: State, serverID: int, x: string)
  {
    Undo(s, serverID, x, true) == x
  }

  // A name given to a string on a server is undone there, then and later.
  lemma NameUndone(s: State, s': State, serverID: int, x: string, rowsOk: bool)
    requires Coherent(s) && Coherent(s') && Grows(s, s') && (x, serverID) in s.rmap
    ensures Undo(s', serverID, s.rmap[(x, serverID)], rowsOk) == x
  {
    var y := s.rmap[(x, serverID)];
    assert y in s.cache && PairOf(s.cache[y]) == (x, serverID);
  }

  lemma UnknownUndone(s: State, serverID: int, x: string)
    requires Coherent(s) && x !in s.cache
    ensures Undo(s, serverID, x, true) == x && Undo(s, serverID, x, false) == x
  {
    ResolveCoherent(s, x, true);
  }

  ghost predicate StrAt(t: Json, path: seq<Hop>, x: string)
  {
    Look(t, path) == Some(Scalar(Str(x)))
  }

  // The strings that come back changed: those the walk there leaves alone (the kept ones, and for the
  // aggregator's walker the ones only the proxy's walker looks at) although they can be undone.
  ghost predicate ComesBackChanged(w: Walker, s': State, serverID: int, kept: set<string>, t: Json, path: seq<Hop>,
                                   x: string)
  {
    StrAt(t, path, x) && IdPlace(Proxy, path) && (x in kept || !IdPlace(w, path)) && !Safe(s', serverID, x)
  }

  predicate IsStr(n: Option<Node>)
  {
    n.Some? && n.value.Scalar? && n.value.value.Str?
  }

  lemma BackAt(w: Walker, s: State, s': State, serverID: int, kept: set<string>, t: Json, u: Json, back: Json,
               path: seq<Hop>)
    requires Coherent(s) && Coherent(s') && Grows(s, s')
    requires Rewritten(w, Rel(s, Virtualize(serverID, kept), false), t, u)
    requires Rewritten(Proxy, Rel(s', Devirtualize(serverID), false), u, back)
    ensures if exists x :: ComesBackChanged(w, s', serverID, kept, t, path, x)
            then Look(back, path) != Look(t, path) else Look(back, path) == Look(t, path)
  {
    RewrittenAt(w, Rel(s, Virtualize(serverID, kept), false), t, u, path);
    RewrittenAt(Proxy, Rel(s', Devirtualize(serverID), false), u, back, path);
    if w.Aggregator? && IdPlace(w, path) {
      AggregatorPlacesAreProxyPlaces(path);
    }
    if IsStr(Look(t, path)) {
      var x := Look(t, path).value.value.text;
      if x !in kept && IdPlace(w, path) {
        NameUndone(s, s', serverID, x, true);
      }
      assert StrAt(t, path, x);
      assert ComesBackChanged(w, s', serverID, kept, t, path, x) ==> Look(back, path) != Look(t, path);
      assert !ComesBackChanged(w, s', serverID, kept, t, path, x) ==> Look(back, path) == Look(t, path);
    }
  }

  // A body virtualised for a server by either walker, while the store grows, and devirtualised for it
  // later by the proxy's walker is the same body exactly when nothing comes back changed.
  lemma RoundTripIff(w: Walker, s: State, s': State, serverID: int, kept: set<string>, t: Json, u: Json, back: Json)
    requires Coherent(s) && Coherent(s') && Grows(s, s')
    requires Rewritten(w, Rel(s, Virtualize(serverID, kept), false), t, u)
    requires Rewritten(Proxy, Rel(s', Devirtualize(serverID), false), u, back)
    ensures back == t <==> forall path, x :: !ComesBackChanged(w, s', serverID, kept, t, path, x)
  {
    if back == t {
      forall path, x
        ensures !ComesBackChanged(w, s', serverID, kept, t, path, x)
      {
        BackAt(w, s, s', serverID, kept, t, u, back, path);
      }
    }
    if forall path, x :: !ComesBackChanged(w, s', serverID, kept, t, path, x) {
      forall path
        ensures Look(t, path) == Look(back, path)
      {
        BackAt(w, s, s', serverID, kept, t, u, back, path);
      }
      SameLooksSameTree(t, back);
    }
  }

  // The proxy's own round trip, whatever fails while undoing: it suffices that the kept texts are no
  // virtual IDs.
  lemma RoundTrip(s: State, s': State, serverID: int, kept: set<string>, faulty: bool, t: Json, u: Json, back: Json)
    requires Coherent(s) && Coherent(s') && Grows(s, s')
    requires forall x | x in kept :: x !in s'.cache
    requires Rewritten(Proxy, Rel(s, Virtualize(serverID, kept), false), t, u)
    requires Rewritten(Proxy, Rel(s', Devirtualize(serverID), faulty), u, back)
    ensures back == t
  {
    var r, r' := Rel(s, Virtualize(serverID, kept), false), Rel(s', Devirtualize(serverID), faulty);
    forall path
      ensures Look(t, path) == Look(back, path)
    {
      RewrittenAt(Proxy, r, t, u, path);
      RewrittenAt(Proxy, r', u, back, path);
      if IsStr(Look(t, path)) && IdPlace(Proxy, path) {
        var x := Look(t, path).value.value.text;
        if x in kept {
          UnknownUndone(s', serverID, x);
        } else {
          NameUndone(s, s', serverID, x, true);
          NameUndone(s, s', serverID, x, false);
        }
      }
    }
    SameLooksSameTree(t, back);
  }

  lemma FaultyTextBack(s: State, s': State, serverID: int, kept: set<string>, faulty: bool, x: string, y: string,
                       z: string)
    requires Coherent(s) && Coherent(s') && Grows(s, s') && x !in s'.cache
    requires Holds(Rel(s, Virtualize(serverID, kept), true), x, y)
    requires Holds(Rel(s', Devirtualize(serverID), faulty), y, z)
    ensures z == x
  {
    UnknownUndone(s', serverID, x);
    if (x, serverID) in s.rmap {
      NameUndone(s, s', serverID, x, true);
      NameUndone(s, s', serverID, x, false);
    }
  }

  lemma FaultyBackAt(s: State, s': State, serverID: int, kept: set<string>, faulty: bool, t: Json, u: Json, back: Json,
                     path: seq<Hop>)
    requires Coherent(s) && Coherent(s') && Grows(s, s')
    requires forall x | StrAt(t, path, x) && IdPlace(Proxy, path) :: x !in s'.cache
    requires Rewritten(Proxy, Rel(s, Virtualize(serverID, kept), true), t, u)
    requires Rewritten(Proxy, Rel(s', Devirtualize(serverID), faulty), u, back)
    ensures Look(t, path) == Look(back, path)
  {
    RewrittenAt(Proxy, Rel(s, Virtualize(serverID, kept), true), t, u, path);
    RewrittenAt(Proxy, Rel(s', Devirtualize(serverID), faulty), u, back, path);
    if IsStr(Look(t, path)) && IdPlace(Proxy, path) {
      var x, y, z := Look(t, path).value.value.text, Look(u, path).value.value.text, Look(back, path).value.value.text;
      assert StrAt(t, path, x);
      FaultyTextBack(s, s', serverID, kept, faulty, x, y, z);
    }
  }

  // When INSERTs fail, the strings they left unnamed must not be virtual IDs either.
  lemma RoundTripWhenInsertsFail(s: State, s': State, serverID: int, kept: set<string>, faulty: bool, t: Json, u: Json,
                                 back: Json)
    requires Coherent(s) && Coherent(s') && Grows(s, s')
    requires forall path, x | StrAt(t, path, x) && IdPlace(Proxy, path) :: x !in s'.cache
    requires Rewritten(Proxy, Rel(s, Virtualize(serverID, kept), true), t, u)
    requires Rewritten(Proxy, Rel(s', Devirtualize(serverID), faulty), u, back)
    ensures back == t
  {
    forall path
      ensures Look(t, path) == Look(back, path)
    {
      FaultyBackAt(s, s', serverID, kept, faulty, t, u, back, path);
    }
    SameLooksSameTree(t, back);
  }

  // ---------- one name for one item ----------

  // Across all bodies: two ID strings that are not kept become the same text exactly when they are the
  // same string and their bodies come from the same server.
  lemma RenamingInjective(w1: Walker, w2: Walker, s: State, server1: int, server2: int,
                          kept1: set<string>, kept2: set<string>,
                          t1: Json, u1: Json, t2: Json, u2: Json,
                          path1: seq<Hop>, path2: seq<Hop>, x1: string, x2: string)
    requires Coherent(s)
    requires Rewritten(w1, Rel(s, Virtualize(server1, kept1), false), t1, u1)
    requires Rewritten(w2, Rel(s, Virtualize(server2, kept2), false), t2, u2)
    requires StrAt(t1, path1, x1) && IdPlace(w1, path1) && x1 !in kept1
    requires StrAt(t2, path2, x2) && IdPlace(w2, path2) && x2 !in kept2
    ensures Look(u1, path1) == Look(u2, path2) <==> x1 == x2 && server1 == server2
  {
    RewrittenAt(w1, Rel(s, Virtualize(server1, kept1), false), t1, u1, path1);
    RewrittenAt(w2, Rel(s, Virtualize(server2, kept2), false), t2, u2, path2);
    var y1, y2 := s.rmap[(x1, server1)], s.rmap[(x2, server2)];
    assert PairOf(s.cache[y1]) == (x1, server1) && PairOf(s.cache[y2]) == (x2, server2);
  }

  // ---------- the walks ----------

  // What a walk may do to the store.
  ghost predicate Extends(s: State, s': State, rewrite: Rewrite)
  {
    KeepsEntries(s, s') && (rewrite.Devirtualize? ==> s' == s)
  }

  lemma ExtendsWeaker(s: State, s': State, rewrite: Rewrite, faulty: bool, faulty': bool)
    requires Extends(s, s', rewrite) && (faulty ==> faulty')
    ensures Weaker(Rel(s, rewrite, faulty), Rel(s', rewrite, faulty'))
  {}

  // Whether a walk's outcome can be relied on: undoing needs a coherent store to start from, naming one
  // that is reliable to the end.
  ghost predicate Sound(ids: Store, rewrite: Rewrite, coherent: bool)
    reads ids
  {
    if rewrite.Devirtualize? then coherent else ids.Reliable()
  }

  // The two callbacks of json_ids.go. None: the string is not touched.
  method RewriteText(ids: Store, rewrite: Rewrite, value: string) returns (text: Option<string>)
    requires ids.Valid()
    modifies ids
    ensures ids.Valid() && ids.Repr >= old(ids.Repr) && fresh(ids.Repr - old(ids.Repr))
    ensures ids.clock >= old(ids.clock) && ids.drawn >= old(ids.drawn)
    ensures Sound(ids, rewrite, old(Coherent(ids.Model()))) ==>
              && Coherent(ids.Model()) && Extends(old(ids.Model()), ids.Model(), rewrite)
              && Holds(Rel(ids.Model(), rewrite, !ids.Worked(old(ids.clock))), value,
                       if text.Some? then text.value else value)
  {
    match rewrite
    case Virtualize(serverID, kept) =>
      if value in kept {
        return None;
      }
      var name := NameItem(ids, value, serverID, "");
      return Some(name);
    case Devirtualize(upstreamID) =>
      ghost var rowsOk;
      text, rowsOk := LookUpOriginal(ids, value, upstreamID);
  }

  method WalkJSONIDs(ids: Store, rewrite: Rewrite, data: Json) returns (out: Json)
    requires ids.Valid()
    modifies ids
    ensures ids.Valid() && ids.Repr >= old(ids.Repr) && fresh(ids.Repr - old(ids.Repr))
    ensures ids.clock >= old(ids.clock) && ids.drawn >= old(ids.drawn)
    ensures Sound(ids, rewrite, old(Coherent(ids.Model()))) ==>
              && Coherent(ids.Model()) && Extends(old(ids.Model()), ids.Model(), rewrite)
              && Rewritten(Proxy, Rel(ids.Model(), rewrite, !ids.Worked(old(ids.clock))), data, out)
    decreases data, 1
  {
    match data
    case Object(_) =>
      out := WalkObject(ids, rewrite, data);
    case Array(_) =>
      out := WalkArray(ids, rewrite, data);
    case _ =>
      return data;
  }

  ghost predicate MembersDone(r: Rel, members: map<string, Json>, v: map<string, Json>, pending: set<string>)
  {
    && v.Keys == members.Keys
    && forall key | key in members && key !in pending :: MemberRewritten(Proxy, r, key, members[key], v[key])
  }

  // One member more is rewritten, and those before are, seen from the store as it is now.
  lemma MembersStep(r: Rel, now: Rel, then_: Rel, members: map<string, Json>, v: map<string, Json>,
                    pending: set<string>, key: string, value: Json)
    requires Weaker(r, then_) && Weaker(now, then_) && key in members
    requires MemberRewritten(Proxy, now, key, members[key], value)
    requires MembersDone(r, members, v, pending)
    ensures MembersDone(then_, members, v[key := value], pending - {key})
  {
    forall k | k in members && k !in pending - {key}
      ensures MemberRewritten(Proxy, then_, k, members[k], v[key := value][k])
    {
      MemberWeaker(Proxy, if k == key then now else r, then_, k, members[k], v[key := value][k]);
    }
  }

  method WalkObject(ids: Store, rewrite: Rewrite, data: Json) returns (out: Json)
    requires data.Object? && ids.Valid()
    modifies ids
    ensures ids.Valid() && ids.Repr >= old(ids.Repr) && fresh(ids.Repr - old(ids.Repr))
    ensures ids.clock >= old(ids.clock) && ids.drawn >= old(ids.drawn)
    ensures Sound(ids, rewrite, old(Coherent(ids.Model()))) ==>
              && Coherent(ids.Model()) && Extends(old(ids.Model()), ids.Model(), rewrite)
              && Rewritten(Proxy, Rel(ids.Model(), rewrite, !ids.Worked(old(ids.clock))), data, out)
    decreases data, 0
  {
    ghost var start, since, coherent := ids.Model(), ids.clock, Coherent(ids.Model());
    // The order in which a Go map is walked is not fixed.
    var v, pending := data.members, data.members.Keys;
    while pending != {}
      invariant pending <= data.members.Keys == v.Keys
      invariant ids.Valid() && ids.Repr >= old(ids.Repr) && fresh(ids.Repr - old(ids.Repr))
      invariant ids.clock >= since && ids.drawn >= old(ids.drawn)
      invariant Sound(ids, rewrite, coherent) ==>
          && Coherent(ids.Model()) && Extends(start, ids.Model(), rewrite)
          && MembersDone(Rel(ids.Model(), rewrite, !ids.Worked(since)), data.members, v, pending)
      decreases pending
    {
      var key :| key in pending;
      ghost var s, c, r := ids.Model(), ids.clock, Rel(ids.Model(), rewrite, !ids.Worked(since));
      var value := WalkMember(ids, rewrite, key, data.members[key]);
      ghost var now, then_ := Rel(ids.Model(), rewrite, !ids.Worked(c)), Rel(ids.Model(), rewrite, !ids.Worked(since));
      if Sound(ids, rewrite, coherent) {
        GrownWeaker(start, s, r, now, then_);
        MembersStep(r, now, then_, data.members, v, pending, key, value);
      }
      pending := pending - {key};
      v := v[key := value];
    }
    return Object(v);
  }

  // What was and what has just been found, seen from the store as it is now.
  lemma GrownWeaker(start: State, s: State, r: Rel, now: Rel, then_: Rel)
    requires r.s == s && now.s == then_.s && r.rewrite == now.rewrite == then_.rewrite
    requires Extends(start, s, r.rewrite) && Extends(s, now.s, r.rewrite)
    requires (r.faulty ==> then_.faulty) && (now.faulty ==> then_.faulty)
    ensures Extends(start, now.s, r.rewrite) && Weaker(r, then_) && Weaker(now, then_)
  {
    ExtendsWeaker(s, now.s, r.rewrite, r.faulty, then_.faulty);
    ExtendsWeaker(now.s, now.s, r.rewrite, now.faulty, then_.faulty);
  }

  ghost predicate ElementsDone(w: Walker, r: Rel, elements: seq<Json>, v: seq<Json>, n: nat)
    requires n <= |elements|
  {
    |v| == |elements| && forall j | 0 <= j < n :: Rewritten(w, r, elements[j], v[j])
  }

  lemma ElementsStep(w: Walker, r: Rel, now: Rel, then_: Rel, elements: seq<Json>, v: seq<Json>, n: nat, value: Json)
    requires Weaker(r, then_) && Weaker(now, then_) && n < |elements|
    requires ElementsDone(w, r, elements, v, n) && Rewritten(w, now, elements[n], value)
    ensures ElementsDone(w, then_, elements, v[n := value], n + 1)
  {
    forall j | 0 <= j <= n
      ensures Rewritten(w, then_, elements[j], v[n := value][j])
    {
      RewrittenWeaker(w, if j == n then now else r, then_, elements[j], v[n := value][j]);
    }
  }

  method WalkArray(ids: Store, rewrite: Rewrite, data: Json) returns (out: Json)
    requires data.Array? && ids.Valid()
    modifies ids
    ensures ids.Valid() && ids.Repr >= old(ids.Repr) && fresh(ids.Repr - old(ids.Repr))
    ensures ids.clock >= old(ids.clock) && ids.drawn >= old(ids.drawn)
    ensures Sound(ids, rewrite, old(Coherent(ids.Model()))) ==>
              && Coherent(ids.Model()) && Extends(old(ids.Model()), ids.Model(), rewrite)
              && Rewritten(Proxy, Rel(ids.Model(), rewrite, !ids.Worked(old(ids.clock))), data, out)
    decreases data, 0
  {
    ghost var start, since, coherent := ids.Model(), ids.clock, Coherent(ids.Model());
    var elements := data.elements;
    var v := elements;
    for i := 0 to |elements|
      invariant |v| == |elements|
      invariant ids.Valid() && ids.Repr >= old(ids.Repr) && fresh(ids.Repr - old(ids.Repr))
      invariant ids.clock >= since && ids.drawn >= old(ids.drawn)
      invariant Sound(ids, rewrite, coherent) ==>
          && Coherent(ids.Model()) && Extends(start, ids.Model(), rewrite)
          && ElementsDone(Proxy, Rel(ids.Model(), rewrite, !ids.Worked(since)), elements, v, i)
    {
      ghost var s, c, r := ids.Model(), ids.clock, Rel(ids.Model(), rewrite, !ids.Worked(since));
      var value := WalkJSONIDs(ids, rewrite, elements[i]);
      ghost var now, then_ := Rel(ids.Model(), rewrite, !ids.Worked(c)), Rel(ids.Model(), rewrite, !ids.Worked(since));
      if Sound(ids, rewrite, coherent) {
        GrownWeaker(start, s, r, now, then_);
        ElementsStep(Proxy, r, now, then_, elements, v, i, value);
      }
      v := v[i := value];
    }
    return Array(v);
  }

  // The switch inside the walk of an object.
  method WalkMember(ids: Store, rewrite: Rewrite, key: string, value: Json) returns (out: Json)
    requires ids.Valid()
    modifies ids
    ensures ids.Valid() && ids.Repr >= old(ids.Repr) && fresh(ids.Repr - old(ids.Repr))
    ensures ids.clock >= old(ids.clock) && ids.drawn >= old(ids.drawn)
    ensures Sound(ids, rewrite, old(Coherent(ids.Model()))) ==>
              && Coherent(ids.Model()) && Extends(old(ids.Model()), ids.Model(), rewrite)
              && MemberRewritten(Proxy, Rel(ids.Model(), rewrite, !ids.Worked(old(ids.clock))), key, value, out)
    decreases value, 2
  {
    match value
    case Str(text) =>
      if ShouldRewriteScalarKey(key) {
        var rewritten := RewriteText(ids, rewrite, text);
        if rewritten.Some? {
          return Str(rewritten.value);
        }
      }
      return value;
    case Array(elements) =>
      if ShouldRewriteArrayKey(key) {
        out := WalkIdArray(ids, rewrite, value);
      } else {
        out := WalkJSONIDs(ids, rewrite, value);
      }
    case _ =>
      out := WalkJSONIDs(ids, rewrite, value);
  }

  ghost predicate IdElementsDone(r: Rel, elements: seq<Json>, typed: seq<Json>, n: nat)
    requires n <= |elements|
  {
    |typed| == |elements| && forall j | 0 <= j < n :: ElementRewritten(Proxy, r, elements[j], typed[j])
  }

  lemma IdElementsStep(r: Rel, now: Rel, then_: Rel, elements: seq<Json>, typed: seq<Json>, n: nat, element: Json)
    requires Weaker(r, then_) && Weaker(now, then_) && n < |elements|
    requires IdElementsDone(r, elements, typed, n) && ElementRewritten(Proxy, now, elements[n], element)
    ensures IdElementsDone(then_, elements, typed[n := element], n + 1)
  {
    forall j | 0 <= j <= n
      ensures ElementRewritten(Proxy, then_, elements[j], typed[n := element][j])
    {
      ElementWeaker(Proxy, if j == n then now else r, then_, elements[j], typed[n := element][j]);
    }
  }

  method WalkIdArray(ids: Store, rewrite: Rewrite, array_: Json) returns (out: Json)
    requires ids.Valid() && array_.Array?
    modifies ids
    ensures ids.Valid() && ids.Repr >= old(ids.Repr) && fresh(ids.Repr - old(ids.Repr))
    ensures ids.clock >= old(ids.clock) && ids.drawn >= old(ids.drawn)
    ensures out.Array?
    ensures Sound(ids, rewrite, old(Coherent(ids.Model()))) ==>
              && Coherent(ids.Model()) && Extends(old(ids.Model()), ids.Model(), rewrite)
              && IdElementsDone(Rel(ids.Model(), rewrite, !ids.Worked(old(ids.clock))),
                                array_.elements, out.elements, |array_.elements|)
    decreases array_, 1
  {
    ghost var start, since, coherent := ids.Model(), ids.clock, Coherent(ids.Model());
    var elements := array_.elements;
    var typed := elements;
    for i := 0 to |elements|
      invariant |typed| == |elements|
      invariant ids.Valid() && ids.Repr >= old(ids.Repr) && fresh(ids.Repr - old(ids.Repr))
      invariant ids.clock >= since && ids.drawn >= old(ids.drawn)
      invariant Sound(ids, rewrite, coherent) ==>
          && Coherent(ids.Model()) && Extends(start, ids.Model(), rewrite)
          && IdElementsDone(Rel(ids.Model(), rewrite, !ids.Worked(since)), elements, typed, i)
    {
      ghost var s, c, r := ids.Model(), ids.clock, Rel(ids.Model(), rewrite, !ids.Worked(since));
      var element := WalkElement(ids, rewrite, elements[i]);
      ghost var now, then_ := Rel(ids.Model(), rewrite, !ids.Worked(c)), Rel(ids.Model(), rewrite, !ids.Worked(since));
      if Sound(ids, rewrite, coherent) {
        GrownWeaker(start, s, r, now, then_);
        IdElementsStep(r, now, then_, elements, typed, i, element);
      }
      typed := typed[i := element];
    }
    return Array(typed);
  }

  method WalkElement(ids: Store, rewrite: Rewrite, element: Json) returns (out: Json)
    requires ids.Valid()
    modifies ids
    ensures ids.Valid() && ids.Repr >= old(ids.Repr) && fresh(ids.Repr - old(ids.Repr))
    ensures ids.clock >= old(ids.clock) && ids.drawn >= old(ids.drawn)
    ensures Sound(ids, rewrite, old(Coherent(ids.Model()))) ==>
              && Coherent(ids.Model()) && Extends(old(ids.Model()), ids.Model(), rewrite)
              && ElementRewritten(Proxy, Rel(ids.Model(), rewrite, !ids.Worked(old(ids.clock))), element, out)
    decreases element, 2
  {
    if element.Str? {
      var rewritten := RewriteText(ids, rewrite, element.text);
      return if rewritten.Some? then Str(rewritten.value) else element;
    }
    out := WalkJSONIDs(ids, rewrite, element);
  }

  method VirtualizeJSON(ids: Store, proxyUserID: string, parsed: Json, serverID: int) returns (out: Json)
    requires ids.Valid()
    modifies ids
    ensures ids.Valid() && ids.Repr >= old(ids.Repr) && fresh(ids.Repr - old(ids.Repr))
    ensures ids.clock >= old(ids.clock) && ids.drawn >= old(ids.drawn)
    ensures ids.Reliable() ==>
              && KeepsEntries(old(ids.Model()), ids.Model())
              && var rewrite := Virtualize(serverID, {"", proxyUserID});
                 Rewritten(Proxy, Rel(ids.Model(), rewrite, !ids.Worked(old(ids.clock))), parsed, out)
  {
    out := WalkJSONIDs(ids, Virtualize(serverID, {"", proxyUserID}), parsed);
  }

  method DevirtualizeJSON(ids: Store, parsed: Json, upstreamID: int) returns (out: Json)
    requires ids.Valid()
    modifies ids
    ensures ids.Valid() && ids.Repr >= old(ids.Repr) && fresh(ids.Repr - old(ids.Repr))
    ensures ids.clock >= old(ids.clock) && ids.drawn >= old(ids.drawn)
    ensures old(Coherent(ids.Model())) ==>
              && ids.Model() == old(ids.Model())
              && Rewritten(Proxy, Rel(ids.Model(), Devirtualize(upstreamID), !ids.Worked(old(ids.clock))), parsed, out)
  {
    out := WalkJSONIDs(ids, Devirtualize(upstreamID), parsed);
  }

  // ---------- the aggregator's walk ----------

  ghost predicate FieldsNamed(r: Rel, fields: seq<string>, members: map<string, Json>, v: map<string, Json>)
  {
    && v.Keys == members.Keys
    && forall key | key in members ::
         if key in fields && members[key].Str? then v[key].Str? && Holds(r, members[key].text, v[key].text)
         else v[key] == members[key]
  }

  lemma FieldsNamedWeaker(r: Rel, r': Rel, fields: seq<string>, members: map<string, Json>, v: map<string, Json>)
    requires Weaker(r, r') && FieldsNamed(r, fields, members, v)
    ensures FieldsNamed(r', fields, members, v)
  {}

  // Naming the fields and then going down into the values rewrites the object.
  lemma FieldsThenValues(r: Rel, now: Rel, then_: Rel, members: map<string, Json>, named: map<string, Json>,
                         v: map<string, Json>)
    requires Weaker(r, then_) && Weaker(now, then_)
    requires FieldsNamed(r, AGGREGATOR_FIELDS, members, named) && ValuesDone(now, named, v, {})
    ensures Rewritten(Aggregator, then_, Object(members), Object(v))
  {
    FieldsNamedWeaker(r, then_, AGGREGATOR_FIELDS, members, named);
    forall key | key in members
      ensures MemberRewritten(Aggregator, then_, key, members[key], v[key])
    {
      RewrittenWeaker(Aggregator, now, then_, named[key], v[key]);
    }
  }

  // How the aggregator names strings, as seen from a store that has been at work since some time.
  ghost function Naming(store: Store, serverID: int, since: nat): Rel
    requires store.Wired()
    reads store, store.Repr
  {
    Rel(store.Model(), Virtualize(serverID, {""}), !store.Worked(since))
  }

  method WalkAndVirtualize(store: Store, serverID: int, data: Json) returns (out: Json)
    requires store.Valid()
    modifies store
    ensures store.Valid() && store.Repr >= old(store.Repr) && fresh(store.Repr - old(store.Repr))
    ensures store.clock >= old(store.clock) && store.drawn >= old(store.drawn)
    ensures store.Reliable() ==>
              && KeepsEntries(old(store.Model()), store.Model())
              && Rewritten(Aggregator, Naming(store, serverID, old(store.clock)), data, out)
    decreases data, 1
  {
    ghost var start, since := store.Model(), store.clock;
    match data
    case Object(members) =>
      var named := NameFields(store, serverID, members);
      ghost var s, c, r := store.Model(), store.clock, Naming(store, serverID, since);
      var v := WalkValues(store, serverID, data, named);
      if store.Reliable() {
        ghost var now, then_ := Naming(store, serverID, c), Naming(store, serverID, since);
        GrownWeaker(start, s, r, now, then_);
        FieldsThenValues(r, now, then_, members, named, v);
      }
      return Object(v);
    case Array(elements) =>
      out := WalkElements(store, serverID, data);
    case _ =>
      return data;
  }

  ghost predicate ValuesDone(r: Rel, named: map<string, Json>, v: map<string, Json>, pending: set<string>)
  {
    && v.Keys == named.Keys
    && (forall key | key in pending && key in named :: v[key] == named[key])
    && (forall key | key in named && key !in pending :: Rewritten(Aggregator, r, named[key], v[key]))
  }

  lemma ValuesStep(r: Rel, now: Rel, then_: Rel, named: map<string, Json>, v: map<string, Json>,
                   pending: set<string>, key: string, value: Json)
    requires Weaker(r, then_) && Weaker(now, then_) && key in named
    requires ValuesDone(r, named, v, pending) && Rewritten(Aggregator, now, named[key], value)
    ensures ValuesDone(then_, named, v[key := value], pending - {key})
  {
    forall k | k in named && k !in pending - {key}
      ensures Rewritten(Aggregator, then_, named[k], v[key := value][k])
    {
      RewrittenWeaker(Aggregator, if k == key then now else r, then_, named[k], v[key := value][k]);
    }
  }

  // The second loop over an object. Going down into a string does nothing.
  method WalkValues(store: Store, serverID: int, data: Json, named: map<string, Json>) returns (v: map<string, Json>)
    requires store.Valid() && data.Object? && named.Keys == data.members.Keys
    requires forall key | key in named :: named[key].Str? || named[key] == data.members[key]
    modifies store
    ensures store.Valid() && store.Repr >= old(store.Repr) && fresh(store.Repr - old(store.Repr))
    ensures store.clock >= old(store.clock) && store.drawn >= old(store.drawn)
    ensures v.Keys == named.Keys
    ensures store.Reliable() ==>
              && KeepsEntries(old(store.Model()), store.Model())
              && ValuesDone(Naming(store, serverID, old(store.clock)), named, v, {})
    decreases data, 0
  {
    ghost var start, since := store.Model(), store.clock;
    v := named;
    var pending := named.Keys;
    while pending != {}
      invariant pending <= named.Keys == v.Keys
      invariant store.Valid() && store.Repr >= old(store.Repr) && fresh(store.Repr - old(store.Repr))
      invariant store.clock >= since && store.drawn >= old(store.drawn)
      invariant store.Reliable() ==>
          KeepsEntries(start, store.Model()) && ValuesDone(Naming(store, serverID, since), named, v, pending)
      decreases pending
    {
      var key :| key in pending;
      ghost var s, c, r := store.Model(), store.clock, Naming(store, serverID, since);
      var value := named[key];
      if !value.Str? {
        value := WalkAndVirtualize(store, serverID, value);
      }
      if store.Reliable() {
        ghost var now, then_ := Naming(store, serverID, c), Naming(store, serverID, since);
        GrownWeaker(start, s, r, now, then_);
        ValuesStep(r, now, then_, named, v, pending, key, value);
      }
      pending := pending - {key};
      v := v[key := value];
    }
  }

  method WalkElements(store: Store, serverID: int, data: Json) returns (out: Json)
    requires store.Valid() && data.Array?
    modifies store
    ensures store.Valid() && store.Repr >= old(store.Repr) && fresh(store.Repr - old(store.Repr))
    ensures store.clock >= old(store.clock) && store.drawn >= old(store.drawn)
    ensures store.Reliable() ==>
              && KeepsEntries(old(store.Model()), store.Model())
              && Rewritten(Aggregator, Naming(store, serverID, old(store.clock)), data, out)
    decreases data, 0
  {
    ghost var start, since := store.Model(), store.clock;
    var elements := data.elements;
    var v := elements;
    for i := 0 to |elements|
      invariant |v| == |elements|
      invariant store.Valid() && store.Repr >= old(store.Repr) && fresh(store.Repr - old(store.Repr))
      invariant store.clock >= since && store.drawn >= old(store.drawn)
      invariant store.Reliable() ==>
          KeepsEntries(start, store.Model()) && ElementsDone(Aggregator, Naming(store, serverID, since), elements, v, i)
    {
      ghost var s, c, r := store.Model(), store.clock, Naming(store, serverID, since);
      var value := WalkAndVirtualize(store, serverID, elements[i]);
      if store.Reliable() {
        ghost var now, then_ := Naming(store, serverID, c), Naming(store, serverID, since);
        GrownWeaker(start, s, r, now, then_);
        ElementsStep(Aggregator, r, now, then_, elements, v, i, value);
      }
      v := v[i := value];
    }
    return Array(v);
  }

  lemma FieldsDistinct(i: nat)
    requires i < |AGGREGATOR_FIELDS|
    ensures AGGREGATOR_FIELDS[i] !in AGGREGATOR_FIELDS[..i]
    ensures AGGREGATOR_FIELDS[..i + 1] == AGGREGATOR_FIELDS[..i] + [AGGREGATOR_FIELDS[i]]
  {
    assert forall j | 0 <= j < i :: AGGREGATOR_FIELDS[j] != AGGREGATOR_FIELDS[i];
  }

  // One field more is named, or holds no string.
  lemma FieldsStep(r: Rel, now: Rel, then_: Rel, fields: seq<string>, field: string,
                   members: map<string, Json>, v: map<string, Json>, v': map<string, Json>)
    requires Weaker(r, then_) && Weaker(now, then_)
    requires FieldsNamed(r, fields, members, v) && field !in fields
    requires if field in v && v[field].Str? then
               exists name :: v' == v[field := Str(name)] && Holds(now, v[field].text, name)
             else v' == v
    ensures FieldsNamed(then_, fields + [field], members, v')
  {
    FieldsNamedWeaker(r, then_, fields, members, v);
  }

  method NameField(store: Store, serverID: int, field: string, v: map<string, Json>) returns (v': map<string, Json>)
    requires store.Valid()
    modifies store
    ensures store.Valid() && store.Repr >= old(store.Repr) && fresh(store.Repr - old(store.Repr))
    ensures store.clock >= old(store.clock) && store.drawn >= old(store.drawn)
    ensures v'.Keys == v.Keys && forall key | key in v :: v'[key].Str? || v'[key] == v[key]
    ensures store.Reliable() ==> KeepsEntries(old(store.Model()), store.Model())
    ensures store.Reliable() ==>
              if field in v && v[field].Str? then
                exists name :: v' == v[field := Str(name)]
                            && Holds(Naming(store, serverID, old(store.clock)), v[field].text, name)
              else v' == v
  {
    v' := v;
    if field in v && v[field].Str? {
      var name := v[field].text;
      if name != "" {
        name := NameItem(store, name, serverID, "");
      }
      v' := v[field := Str(name)];
    }
  }

  // The first loop over an object: the ID fields, in their listed order.
  method NameFields(store: Store, serverID: int, members: map<string, Json>) returns (v: map<string, Json>)
    requires store.Valid()
    modifies store
    ensures store.Valid() && store.Repr >= old(store.Repr) && fresh(store.Repr - old(store.Repr))
    ensures store.clock >= old(store.clock) && store.drawn >= old(store.drawn)
    ensures v.Keys == members.Keys && forall key | key in members :: v[key].Str? || v[key] == members[key]
    ensures store.Reliable() ==>
              && KeepsEntries(old(store.Model()), store.Model())
              && FieldsNamed(Naming(store, serverID, old(store.clock)), AGGREGATOR_FIELDS, members, v)
  {
    ghost var start, since := store.Model(), store.clock;
    v := members;
    for i := 0 to |AGGREGATOR_FIELDS|
      invariant store.Valid() && store.Repr >= old(store.Repr) && fresh(store.Repr - old(store.Repr))
      invariant store.clock >= since && store.drawn >= old(store.drawn)
      invariant v.Keys == members.Keys && forall key | key in members :: v[key].Str? || v[key] == members[key]
      invariant store.Reliable() ==>
          && KeepsEntries(start, store.Model())
          && FieldsNamed(Naming(store, serverID, since), AGGREGATOR_FIELDS[..i], members, v)
    {
      ghost var s, c, r, before := store.Model(), store.clock, Naming(store, serverID, since), v;
      v := NameField(store, serverID, AGGREGATOR_FIELDS[i], v);
      FieldsDistinct(i);
      if store.Reliable() {
        ghost var now, then_ := Naming(store, serverID, c), Naming(store, serverID, since);
        GrownWeaker(start, s, r, now, then_);
        FieldsStep(r, now, then_, AGGREGATOR_FIELDS[..i], AGGREGATOR_FIELDS[i], members, before, v);
      }
    }
    assert AGGREGATOR_FIELDS[..|AGGREGATOR_FIELDS|] == AGGREGATOR_FIELDS;
  }
}
