// Rewriting a request path for one upstream: rewritePathForUpstream of the aggregator and of the proxy
// handler. Both work on the decoded path, segment by segment.
module Paths {
  import opened Wrappers
  import opened Text
  import opened IdMap
  import opened IdStore
  import opened JsonIds
  import opened Dedup
  import opened MergeResults

  // The upstream's own user takes the place after a leading /Users.
  function WithUser(segments: seq<string>, userID: string): (r: seq<string>)
    ensures |r| == |segments|
  {
    if |segments| > 2 && segments[1] == "Users" && userID != "" then segments[2 := userID] else segments
  }

  // ---------- the aggregator: an upstream that lacks an item is not asked ----------

  // What one lookup may answer; a failed read of the rows can only turn an answer into none.
  ghost predicate Answers(s: State, upstreamID: int, faulty: bool, x: string, answer: Option<string>)
  {
    || answer == OriginalForUpstream(s, x, upstreamID, true, true)
    || (faulty && answer == OriginalForUpstream(s, x, upstreamID, true, false))
  }

  ghost predicate SegmentFor(s: State, upstreamID: int, faulty: bool, x: string, y: string)
  {
    if IsLikelyVirtualID(x) then Answers(s, upstreamID, faulty, x, Some(y)) else y == x
  }

  ghost predicate PathFor(s: State, upstreamID: int, faulty: bool, segments: seq<string>, r: Option<string>)
  {
    match r
    case Some(path) =>
      exists out: seq<string> :: path == Join(out, "/") && |out| == |segments|
        && forall i | 0 <= i < |out| :: SegmentFor(s, upstreamID, faulty, segments[i], out[i])
    case None =>
      exists i :: 0 <= i < |segments| && IsLikelyVirtualID(segments[i]) &&
        Answers(s, upstreamID, faulty, segments[i], None)
  }

  method AnswerFor(ids: Store, segment: string, upstreamID: int) returns (answer: Option<string>)
    requires ids.Valid()
    modifies ids
    ensures ids.Valid() && ids.Repr >= old(ids.Repr) && fresh(ids.Repr - old(ids.Repr))
    ensures ids.clock >= old(ids.clock) && ids.drawn == old(ids.drawn)
    ensures old(Coherent(ids.Model())) ==> ids.Model() == old(ids.Model())
    ensures old(Coherent(ids.Model())) ==>
              Answers(ids.Model(), upstreamID, !ids.Worked(old(ids.clock)), segment, answer)
  {
    ghost var rowsOk;
    answer, rowsOk := LookUpOriginal(ids, segment, upstreamID);
  }

  method SegmentAnswer(ids: Store, segment: string, upstreamID: int) returns (answer: Option<string>)
    requires ids.Valid()
    modifies ids
    ensures ids.Valid() && ids.Repr >= old(ids.Repr) && fresh(ids.Repr - old(ids.Repr))
    ensures ids.clock >= old(ids.clock) && ids.drawn == old(ids.drawn)
    ensures old(Coherent(ids.Model())) ==> ids.Model() == old(ids.Model())
    ensures answer.None? ==> IsLikelyVirtualID(segment)
    ensures old(Coherent(ids.Model())) ==>
              var faulty := !ids.Worked(old(ids.clock));
              if answer.Some? then SegmentFor(ids.Model(), upstreamID, faulty, segment, answer.value)
              else Answers(ids.Model(), upstreamID, faulty, segment, None)
  {
    if !IsLikelyVirtualID(segment) {
      return Some(segment);
    }
    answer := AnswerFor(ids, segment, upstreamID);
  }

  ghost predicate SegmentsFor(s: State, upstreamID: int, faulty: bool, given: seq<string>, out: seq<string>, n: nat)
    requires n <= |given| == |out|
  {
    forall j | 0 <= j < n :: SegmentFor(s, upstreamID, faulty, given[j], out[j])
  }

  lemma SegmentsStep(s: State, upstreamID: int, before: bool, now: bool, faulty: bool,
                     given: seq<string>, out: seq<string>, n: nat, y: string)
    requires n < |given| == |out| && (before || now ==> faulty)
    requires SegmentsFor(s, upstreamID, before, given, out, n) && SegmentFor(s, upstreamID, now, given[n], y)
    ensures SegmentsFor(s, upstreamID, faulty, given, out[n := y], n + 1)
  {}

  // None: this upstream is left out of the aggregation.
  method RewritePathForUpstream(ids: Store, path: string, userID: string, upstreamID: int) returns (r: Option<string>)
    requires ids.Valid()
    modifies ids
    ensures ids.Valid() && ids.Repr >= old(ids.Repr) && fresh(ids.Repr - old(ids.Repr))
    ensures ids.clock >= old(ids.clock) && ids.drawn == old(ids.drawn)
    ensures old(Coherent(ids.Model())) ==> ids.Model() == old(ids.Model())
    ensures old(Coherent(ids.Model())) ==>
              PathFor(ids.Model(), upstreamID, !ids.Worked(old(ids.clock)), WithUser(Split(path, '/'), userID), r)
  {
    ghost var s, since := ids.Model(), ids.clock;
    var segments := Split(path, '/');
    if |segments| > 2 && segments[1] == "Users" {
      if userID != "" {
        segments := segments[2 := userID];
      }
    }
    ghost var given := segments;
    for i := 0 to |segments|
      invariant ids.Valid() && ids.Repr >= old(ids.Repr) && fresh(ids.Repr - old(ids.Repr))
      invariant ids.clock >= since && ids.drawn == old(ids.drawn)
      invariant Coherent(s) ==> ids.Model() == s
      invariant |segments| == |given| && segments[i..] == given[i..]
      invariant Coherent(s) ==> SegmentsFor(s, upstreamID, !ids.Worked(since), given, segments, i)
    {
      var segment := segments[i];
      assert segment == segments[i..][0] == given[i];
      ghost var c, before := ids.clock, !ids.Worked(since);
      var answer := SegmentAnswer(ids, segment, upstreamID);
      if answer.None? {
        assert Coherent(s) ==> Answers(s, upstreamID, !ids.Worked(since), given[i], None);
        return None;
      }
      if Coherent(s) {
        SegmentsStep(s, upstreamID, before, !ids.Worked(c), !ids.Worked(since), given, segments, i, answer.value);
      }
      segments := segments[i := answer.value];
    }
    return Some(Join(segments, "/"));
  }

  // ---------- the proxy handler: what it cannot undo it passes on ----------

  ghost predicate SegmentUndone(r: Rel, x: string, y: string)
  {
    if IsLikelyVirtualID(x) then Holds(r, x, y) else y == x
  }

  method UndoText(ids: Store, value: string, upstreamID: int) returns (text: string)
    requires ids.Valid()
    modifies ids
    ensures ids.Valid() && ids.Repr >= old(ids.Repr) && fresh(ids.Repr - old(ids.Repr))
    ensures ids.clock >= old(ids.clock) && ids.drawn == old(ids.drawn)
    ensures old(Coherent(ids.Model())) ==> ids.Model() == old(ids.Model())
    ensures old(Coherent(ids.Model())) ==>
              Holds(Rel(ids.Model(), Devirtualize(upstreamID), !ids.Worked(old(ids.clock))), value, text)
  {
    var answer := AnswerFor(ids, value, upstreamID);
    text := if answer.Some? then answer.value else value;
  }

  method UndoSegment(ids: Store, segment: string, upstreamID: int) returns (text: string)
    requires ids.Valid()
    modifies ids
    ensures ids.Valid() && ids.Repr >= old(ids.Repr) && fresh(ids.Repr - old(ids.Repr))
    ensures ids.clock >= old(ids.clock) && ids.drawn == old(ids.drawn)
    ensures old(Coherent(ids.Model())) ==> ids.Model() == old(ids.Model())
    ensures old(Coherent(ids.Model())) ==>
              SegmentUndone(Rel(ids.Model(), Devirtualize(upstreamID), !ids.Worked(old(ids.clock))), segment, text)
  {
    if !IsLikelyVirtualID(segment) {
      return segment;
    }
    text := UndoText(ids, segment, upstreamID);
  }

  ghost predicate ValuesUndone(r: Rel, key: string, values: seq<string>, out: seq<string>)
  {
    && |out| == |values|
    && forall i | 0 <= i < |values| ::
         if ShouldRewriteScalarKey(key) || ShouldRewriteArrayKey(key) then Holds(r, values[i], out[i])
         else out[i] == values[i]
  }

  type Query = map<string, seq<string>>

  method RewriteForUpstream(ids: Store, path: string, query: Query, userID: string, upstreamID: int)
      returns (path': string, query': Query, ghost out: seq<string>)
    requires ids.Valid()
    modifies ids
    ensures ids.Valid() && ids.Repr >= old(ids.Repr) && fresh(ids.Repr - old(ids.Repr))
    ensures ids.clock >= old(ids.clock) && ids.drawn == old(ids.drawn)
    ensures old(Coherent(ids.Model())) ==> ids.Model() == old(ids.Model())
    ensures path' == Join(out, "/") && |out| == |Split(path, '/')| && query'.Keys == query.Keys
    ensures old(Coherent(ids.Model())) ==>
              var r := Rel(ids.Model(), Devirtualize(upstreamID), !ids.Worked(old(ids.clock)));
              SegmentsUndone(r, WithUser(Split(path, '/'), userID), out, |out|) && QueryUndone(r, query, query', {})
  {
    ghost var s, since := ids.Model(), ids.clock;
    var segments := Split(path, '/');
    if |segments| > 2 && segments[1] == "Users" {
      if userID != "" {
        segments := segments[2 := userID];
      }
    }
    ghost var given := segments;
    segments := RewriteSegments(ids, segments, upstreamID);
    path', out := Join(segments, "/"), segments;
    ghost var c := ids.clock;
    ghost var before := Rel(s, Devirtualize(upstreamID), !ids.Worked(since));
    query' := RewriteQuery(ids, query, upstreamID);
    if Coherent(s) {
      var r, now := Rel(s, Devirtualize(upstreamID), !ids.Worked(since)),
        Rel(s, Devirtualize(upstreamID), !ids.Worked(c));
      SegmentsWeaker(before, r, given, out, |out|);
      QueryWeaker(now, r, query, query', {});
    }
  }

  ghost predicate SegmentsUndone(r: Rel, given: seq<string>, out: seq<string>, n: nat)
    requires n <= |given| == |out|
  {
    forall i | 0 <= i < n :: SegmentUndone(r, given[i], out[i])
  }

  ghost predicate QueryUndone(r: Rel, query: Query, query': Query, pending: set<string>)
    requires query'.Keys == query.Keys
  {
    forall key | key in query ::
      if key in pending then query'[key] == query[key] else ValuesUndone(r, key, query[key], query'[key])
  }

  // The same after more lookups: a read may have failed meanwhile.
  ghost predicate Later(r: Rel, r': Rel)
  {
    r'.s == r.s && r'.rewrite == r.rewrite && r.rewrite.Devirtualize? && (r.faulty ==> r'.faulty)
  }

  lemma SegmentsWeaker(r: Rel, r': Rel, given: seq<string>, out: seq<string>, n: nat)
    requires n <= |given| == |out| && Later(r, r') && SegmentsUndone(r, given, out, n)
    ensures SegmentsUndone(r', given, out, n)
  {
    forall i | 0 <= i < n
      ensures SegmentUndone(r', given[i], out[i])
    {
      assert SegmentUndone(r, given[i], out[i]);
    }
  }

  lemma ValuesWeaker(r: Rel, r': Rel, key: string, values: seq<string>, out: seq<string>)
    requires Later(r, r') && ValuesUndone(r, key, values, out)
    ensures ValuesUndone(r', key, values, out)
  {
    forall i | 0 <= i < |values|
      ensures Holds(r, values[i], out[i]) ==> Holds(r', values[i], out[i])
    {}
  }

  lemma QueryWeaker(r: Rel, r': Rel, query: Query, query': Query, pending: set<string>)
    requires query'.Keys == query.Keys && Later(r, r') && QueryUndone(r, query, query', pending)
    ensures QueryUndone(r', query, query', pending)
  {
    forall key | key in query && key !in pending
      ensures ValuesUndone(r', key, query[key], query'[key])
    {
      ValuesWeaker(r, r', key, query[key], query'[key]);
    }
  }

  method RewriteSegments(ids: Store, given: seq<string>, upstreamID: int) returns (segments: seq<string>)
    requires ids.Valid()
    modifies ids
    ensures ids.Valid() && ids.Repr >= old(ids.Repr) && fresh(ids.Repr - old(ids.Repr))
    ensures ids.clock >= old(ids.clock) && ids.drawn == old(ids.drawn)
    ensures old(Coherent(ids.Model())) ==> ids.Model() == old(ids.Model())
    ensures |segments| == |given|
    ensures old(Coherent(ids.Model())) ==>
              SegmentsUndone(Rel(ids.Model(), Devirtualize(upstreamID), !ids.Worked(old(ids.clock))), given, segments,
                |given|)
  {
    ghost var s, since, rewrite := ids.Model(), ids.clock, Devirtualize(upstreamID);
    segments := given;
    for i := 0 to |segments|
      invariant ids.Valid() && ids.Repr >= old(ids.Repr) && fresh(ids.Repr - old(ids.Repr))
      invariant ids.clock >= since && ids.drawn == old(ids.drawn)
      invariant Coherent(s) ==> ids.Model() == s
      invariant |segments| == |given| && segments[i..] == given[i..]
      invariant Coherent(s) ==> SegmentsUndone(Rel(s, rewrite, !ids.Worked(since)), given, segments, i)
    {
      assert segments[i] == segments[i..][0] == given[i];
      ghost var c, before, was := ids.clock, !ids.Worked(since), segments;
      var text := UndoSegment(ids, segments[i], upstreamID);
      segments := segments[i := text];
      if Coherent(s) {
        SegmentsWeaker(Rel(s, rewrite, before), Rel(s, rewrite, !ids.Worked(since)), given, was, i);
        assert SegmentUndone(Rel(s, rewrite, !ids.Worked(c)), given[i], text);
      }
    }
  }

  method RewriteQuery(ids: Store, query: Query, upstreamID: int) returns (query': Query)
    requires ids.Valid()
    modifies ids
    ensures ids.Valid() && ids.Repr >= old(ids.Repr) && fresh(ids.Repr - old(ids.Repr))
    ensures ids.clock >= old(ids.clock) && ids.drawn == old(ids.drawn)
    ensures old(Coherent(ids.Model())) ==> ids.Model() == old(ids.Model())
    ensures query'.Keys == query.Keys
    ensures old(Coherent(ids.Model())) ==>
              QueryUndone(Rel(ids.Model(), Devirtualize(upstreamID), !ids.Worked(old(ids.clock))), query, query', {})
  {
    ghost var s, since, rewrite := ids.Model(), ids.clock, Devirtualize(upstreamID);
    query' := query;
    var pending := query.Keys;
    while pending != {}
      invariant pending <= query.Keys == query'.Keys
      invariant ids.Valid() && ids.Repr >= old(ids.Repr) && fresh(ids.Repr - old(ids.Repr))
      invariant ids.clock >= since && ids.drawn == old(ids.drawn)
      invariant Coherent(s) ==> ids.Model() == s
      invariant forall key | key in pending :: query'[key] == query[key]
      invariant Coherent(s) ==> QueryUndone(Rel(s, rewrite, !ids.Worked(since)), query, query', pending)
      decreases pending
    {
      var key :| key in pending;
      ghost var c, before, was := ids.clock, !ids.Worked(since), query';
      var values := query'[key];
      if ShouldRewriteScalarKey(key) || ShouldRewriteArrayKey(key) {
        values := RewriteValues(ids, query'[key], upstreamID);
        query' := query'[key := values];
      }
      if Coherent(s) {
        var now, r := Rel(s, rewrite, !ids.Worked(c)), Rel(s, rewrite, !ids.Worked(since));
        QueryWeaker(Rel(s, rewrite, before), r, query, was, pending);
        ValuesWeaker(now, r, key, query[key], values);
      }
      pending := pending - {key};
    }
  }

  method RewriteValues(ids: Store, given: seq<string>, upstreamID: int) returns (values: seq<string>)
    requires ids.Valid()
    modifies ids
    ensures ids.Valid() && ids.Repr >= old(ids.Repr) && fresh(ids.Repr - old(ids.Repr))
    ensures ids.clock >= old(ids.clock) && ids.drawn == old(ids.drawn)
    ensures old(Coherent(ids.Model())) ==> ids.Model() == old(ids.Model())
    ensures |values| == |given|
    ensures old(Coherent(ids.Model())) ==>
              var r := Rel(ids.Model(), Devirtualize(upstreamID), !ids.Worked(old(ids.clock)));
              forall i | 0 <= i < |given| :: Holds(r, given[i], values[i])
  {
    ghost var s, since, rewrite := ids.Model(), ids.clock, Devirtualize(upstreamID);
    values := given;
    for i := 0 to |values|
      invariant ids.Valid() && ids.Repr >= old(ids.Repr) && fresh(ids.Repr - old(ids.Repr))
      invariant ids.clock >= since && ids.drawn == old(ids.drawn)
      invariant Coherent(s) ==> ids.Model() == s
      invariant |values| == |given| && values[i..] == given[i..]
      invariant Coherent(s) ==> forall j | 0 <= j < i :: Holds(Rel(s, rewrite, !ids.Worked(since)), given[j], values[j])
    {
      assert values[i] == values[i..][0] == given[i];
      ghost var c, before, was := ids.clock, !ids.Worked(since), values;
      var text := UndoText(ids, values[i], upstreamID);
      values := values[i := text];
      if Coherent(s) {
        assert Holds(Rel(s, rewrite, !ids.Worked(c)), given[i], text);
        assert forall j | 0 <= j < i :: Holds(Rel(s, rewrite, before), given[j], was[j]);
      }
    }
  }

  // ---------- each upstream gets its own ID ----------

  // A path whose one virtual ID is that of a merged group is sent to every server of the group with an
  // ID the server knows: the primary's own, or its last item in the group; the rest stays as it is.
  lemma MergedPathLeads(s: State, setup: Setup, group: seq<EmbyItem>, server: int, faulty: bool,
                        segments: seq<string>, i: nat, r: Option<string>)
    requires Coherent(s) && |group| > 1 && Registered(s, setup, group)
    requires exists x | x in group :: x.serverID == server
    requires i < |segments| && IsLikelyVirtualID(segments[i])
    requires forall j | 0 <= j < |segments| && j != i :: !IsLikelyVirtualID(segments[j])
    requires segments[i] == s.rmap[(Primary(setup, group).id, Primary(setup, group).serverID)]
    requires PathFor(s, server, faulty, segments, r)
    ensures var p, id := Primary(setup, group), OriginalForUpstream(s, segments[i], server, true, true);
            && id.Some? && r == Some(Join(segments[i := id.value], "/"))
            && (if server == p.serverID then id.value == p.id else LastOn(group, server, id.value))
  {
    var v := segments[i];
    MergedIdLeads(s, setup, group, server, true);
    MergedIdLeads(s, setup, group, server, false);
    AnswerWithoutRows(s, setup, group, server);
    var id := OriginalForUpstream(s, v, server, true, true).value;
    assert forall k | 0 <= k < |segments| && IsLikelyVirtualID(segments[k]) ::
        k == i && !Answers(s, server, faulty, segments[k], None);
    assert r.Some?;
    var out: seq<string> :| r.value == Join(out, "/") && |out| == |segments|
      && forall k | 0 <= k < |out| :: SegmentFor(s, server, faulty, segments[k], out[k]);
    assert SegmentFor(s, server, faulty, segments[i], out[i]);
    assert out == segments[i := id];
  }

  // The lookup is answered from the cached instances: a failing read of the rows makes no difference.
  lemma AnswerWithoutRows(s: State, setup: Setup, group: seq<EmbyItem>, server: int)
    requires Coherent(s) && |group| > 1 && Registered(s, setup, group)
    requires exists x | x in group :: x.serverID == server
    ensures var v := s.rmap[(Primary(setup, group).id, Primary(setup, group).serverID)];
            OriginalForUpstream(s, v, server, true, false) == OriginalForUpstream(s, v, server, true, true)
  {
    var p := Primary(setup, group);
    if server != p.serverID {
      LastOtherIsLast(group, p, server);
      assert CachedListing(s, s.rmap[(p.id, p.serverID)]);
    }
  }

  // The proxy handler: a path whose segments are originals, some under their names for a server, comes
  // back to the originals for that server.
  lemma NamedPathComesBack(s: State, serverID: int, faulty: bool, originals: seq<string>, named: seq<string>,
                           out: seq<string>)
    requires Coherent(s) && |named| == |originals| == |out|
    requires forall i | 0 <= i < |named| ::
               || (named[i] == originals[i] && !IsLikelyVirtualID(named[i]))
               || ((originals[i], serverID) in s.rmap && named[i] == s.rmap[(originals[i], serverID)] &&
                  IsLikelyVirtualID(named[i]))
    requires forall i | 0 <= i < |named| :: SegmentUndone(Rel(s, Devirtualize(serverID), faulty), named[i], out[i])
    ensures out == originals
  {
    forall i | 0 <= i < |named|
      ensures out[i] == originals[i]
    {
      assert SegmentUndone(Rel(s, Devirtualize(serverID), faulty), named[i], out[i]);
      if IsLikelyVirtualID(named[i]) {
        NameUndone(s, s, serverID, originals[i], true);
        NameUndone(s, s, serverID, originals[i], false);
      }
    }
  }

  // ---------- the substituted user ID ----------

  // The aggregator looks for virtual IDs after it has put in the upstream's own user ID, and takes that
  // for one if it has the shape. A path under /Users with no other ID goes out to the upstream exactly
  // when the user ID has another shape, or happens to resolve; and it goes out with the user ID exactly
  // when the user ID has another shape, or resolves to itself.
  lemma UsersPathReachesIff(s: State, upstreamID: int, segments: seq<string>, userID: string, r: Option<string>)
    requires |segments| > 2 && segments[1] == "Users" && userID != ""
    requires forall j | 0 <= j < |segments| && j != 2 :: !IsLikelyVirtualID(segments[j])
    requires PathFor(s, upstreamID, false, WithUser(segments, userID), r)
    ensures r.Some? <==> !IsLikelyVirtualID(userID) || OriginalForUpstream(s, userID, upstreamID, true, true).Some?
    ensures r == Some(Join(WithUser(segments, userID), "/")) <==>
            !IsLikelyVirtualID(userID) || OriginalForUpstream(s, userID, upstreamID, true, true) == Some(userID)
  {
    var given := WithUser(segments, userID);
    assert given[2] == userID;
    match r
    case Some(path) =>
      var out: seq<string> :| path == Join(out, "/") && |out| == |given|
        && forall k | 0 <= k < |out| :: SegmentFor(s, upstreamID, false, given[k], out[k]);
      assert SegmentFor(s, upstreamID, false, given[2], out[2]);
      assert forall k | 0 <= k < |out| && k != 2 :: SegmentFor(s, upstreamID, false, given[k], out[k]);
      SameJoinIff(given, out, 2);
    case None =>
      var k :| 0 <= k < |given| && IsLikelyVirtualID(given[k]) && Answers(s, upstreamID, false, given[k], None);
      assert k == 2;
  }

  // Paths that differ in one segment at most are the same path only if they do not differ.
  lemma SameJoinIff(a: seq<string>, b: seq<string>, i: nat)
    requires |a| == |b| && i < |a| && forall j | 0 <= j < |a| && j != i :: a[j] == b[j]
    ensures Join(a, "/") == Join(b, "/") <==> a[i] == b[i]
  {
    JoinAround(a, i);
    JoinAround(b, i);
    AroundSame(a, b, i);
    var before, behind := Before(a, i), Behind(a, i);
    var p, q := before + a[i] + behind, before + b[i] + behind;
    if p == q {
      assert |a[i]| == |b[i]|;
      assert p[|before|..|before| + |a[i]|] == a[i] && q[|before|..|before| + |b[i]|] == b[i];
    }
  }

  // With nothing stored, an upstream whose user ID has the shape is not asked.
  lemma UsersPathIsDropped(r: Option<string>)
    requires PathFor(State(map[], map[], Tables(map[], map[])), 1, false,
                     WithUser(["", "Users", "me", "Items"], seq(32, _ => '0')), r)
    ensures r == None
  {
    UsersPathReachesIff(State(map[], map[], Tables(map[], map[])), 1, ["", "Users", "me", "Items"], seq(32, _ => '0'),
      r);
  }
}
