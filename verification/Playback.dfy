// Playback URLs: how a media source's URL is rewritten for the client, and how the stream request the
// client then makes is turned back for the upstream (internal/proxy/playback_compat.go). Paths are
// decoded paths and queries are parameter maps; escaping is net/url's.
module Playback {
  import opened Wrappers
  import opened Text
  import opened IdMap
  import opened IdStore

  // ---------- url.Values ----------

  type Values = map<string, seq<string>>

  function Get(query: Values, key: string): string
  {
    if key in query && query[key] != [] then query[key][0] else ""
  }

  function Set(query: Values, key: string, value: string): Values
  {
    query[key := [value]]
  }

  // A URL without scheme and host. opaque is what an opaque URL has in place of user and path, and user
  // what stands before an @, if there is one.
  datatype Location = Location(opaque_: string, user: Option<string>, path: string, query: Values, fragment: string)

  // ---------- the path for the client ----------

  function ReplacedBy(segments: seq<string>, replacements: map<string, string>): (r: seq<string>)
    ensures |r| == |segments|
  {
    seq(|segments|, i requires 0 <= i < |segments| =>
      if segments[i] in replacements then replacements[segments[i]] else segments[i])
  }

  method RewritePlaybackPath(path: string, replacements: map<string, string>) returns (rewritten: string)
    ensures rewritten == Join(ReplacedBy(Split(path, '/'), replacements), "/")
  {
    ghost var given := Split(path, '/');
    if |replacements| == 0 {
      JoinSplit(path, '/');
      assert ReplacedBy(given, replacements) == given;
      return path;
    }
    var segments := Split(path, '/');
    for i := 0 to |segments|
      invariant |segments| == |given| && segments[i..] == given[i..]
      invariant forall j | 0 <= j < i ::
                segments[j] == if given[j] in replacements then replacements[given[j]] else given[j]
    {
      assert segments[i] == segments[i..][0] == given[i];
      if segments[i] in replacements {
        segments := segments[i := replacements[segments[i]]];
      }
    }
    assert segments == ReplacedBy(given, replacements);
    return Join(segments, "/");
  }

  predicate IsMarker(part: string)
  {
    part == "Videos" || part == "Audio"
  }

  // The first Videos or Audio segment with a segment after it; |parts| if there is none.
  function StreamMarker(parts: seq<string>): (m: nat)
    ensures m <= |parts|
    ensures m < |parts| ==> IsMarker(parts[m]) && m + 1 < |parts|
    ensures forall j | 0 <= j < m && j + 1 < |parts| :: !IsMarker(parts[j])
  {
    if |parts| <= 1 then |parts|
    else if IsMarker(parts[0]) then 0
    else 1 + StreamMarker(parts[1..])
  }

  // The segment after the marker.
  function StreamID(parts: seq<string>): string
  {
    if StreamMarker(parts) < |parts| then parts[StreamMarker(parts) + 1] else ""
  }

  method ExtractStreamID(path: string) returns (id: string)
    ensures id == StreamID(Split(path, '/'))
  {
    var parts := Split(path, '/');
    var i := 0;
    while i < |parts|
      invariant i <= |parts|
      invariant forall j | 0 <= j < i && j + 1 < |parts| :: !IsMarker(parts[j])
    {
      if (parts[i] == "Videos" || parts[i] == "Audio") && i + 1 < |parts| {
        assert StreamMarker(parts) == i;
        return parts[i + 1];
      }
      i := i + 1;
    }
    return "";
  }

  // What the rewritten URL text begins with, made absolute.
  function Finish(start: string): string
  {
    if HasPrefix(start, "//") then "/" + start[2..]
    else if !HasPrefix(start, "/") then "/" + (if HasPrefix(start, "./") then start[2..] else start)
    else start
  }

  // parsed: what url.Parse made of the URL, None if it failed; then there is no URL for the client.
  method BuildProxyPlaybackURL(parsed: Option<Location>, originalItemID: string, virtualItemID: string,
                               virtualMediaSourceID: string, proxyUserID: string) returns (rewritten: Option<Location>)
    ensures rewritten.None? <==> parsed.None?
    ensures parsed.Some? ==>
              && rewritten.value.path == ClientPath(parsed.value, originalItemID, virtualItemID)
              && rewritten.value.query
                 == ClientQuery(parsed.value.query, virtualItemID, virtualMediaSourceID, proxyUserID)
              && rewritten.value.opaque_ == "" && rewritten.value.user == None
              && rewritten.value.fragment == parsed.value.fragment
  {
    if parsed.None? {
      return None;
    }
    var url := parsed.value;
    var replacements: map<string, string> := map[];
    if originalItemID != "" && virtualItemID != "" {
      replacements := replacements[originalItemID := virtualItemID];
    }
    var path := RewritePlaybackPath(url.path, replacements);
    if originalItemID == "" || virtualItemID == "" {
      assert ReplacedBy(Split(url.path, '/'), replacements) == Split(url.path, '/');
      JoinSplit(url.path, '/');
    }
    var query := RewriteQuery(url.query, virtualItemID, virtualMediaSourceID, proxyUserID);
    if path == "" {
      path := "/Videos/" + virtualItemID + "/stream";
    }
    var start := if url.opaque_ != "" then url.opaque_ else UserText(url.user) + path;
    return Some(Location("", None, Finish(start), query, url.fragment));
  }

  // url.URL.String writes a user out after two slashes, also where there is no host.
  function UserText(user: Option<string>): string
  {
    match user
    case Some(text) => "//" + text + "@"
    case None => ""
  }

  // The path of the client's URL: a user ends up in it.
  function ClientPath(url: Location, originalItemID: string, virtualItemID: string): string
  {
    var path :=
      if originalItemID != "" && virtualItemID != "" then Substituted(url.path, originalItemID, virtualItemID)
      else url.path;
    if url.opaque_ != "" then Finish(url.opaque_)
    else Finish(UserText(url.user) + if path == "" then "/Videos/" + virtualItemID + "/stream" else path)
  }

  method RewriteQuery(given: Values, virtualItemID: string, virtualMediaSourceID: string, proxyUserID: string)
      returns (query: Values)
    ensures query == ClientQuery(given, virtualItemID, virtualMediaSourceID, proxyUserID)
  {
    query := given;
    if virtualMediaSourceID != "" && Get(query, "MediaSourceId") != "" {
      query := Set(query, "MediaSourceId", virtualMediaSourceID);
    }
    if virtualItemID != "" && Get(query, "ItemId") != "" {
      query := Set(query, "ItemId", virtualItemID);
    }
    if Get(query, "UserId") != "" {
      query := Set(query, "UserId", proxyUserID);
    }
    query := query - {"api_key"};
    ClientQueryIs(given, virtualItemID, virtualMediaSourceID, proxyUserID);
  }

  // A parameter that has a value gets another, if there is one for it.
  function Overwrite(query: Values, key: string, value: string): (r: Values)
    ensures r.Keys == query.Keys
  {
    if value != "" && Get(query, key) != "" then query[key := [value]] else query
  }

  lemma ClientQueryIs(given: Values, virtualItemID: string, virtualMediaSourceID: string, proxyUserID: string)
    ensures var q := Overwrite(Overwrite(given, "MediaSourceId", virtualMediaSourceID), "ItemId", virtualItemID);
            (if Get(q, "UserId") != "" then Set(q, "UserId", proxyUserID) else q) - {"api_key"}
            == ClientQuery(given, virtualItemID, virtualMediaSourceID, proxyUserID)
  {
    NamesDiffer();
    OverwrittenIs(given, "MediaSourceId", "ItemId", "UserId", "api_key", virtualMediaSourceID, virtualItemID,
      proxyUserID);
  }

  lemma OverwrittenIs(given: Values, a: string, b: string, c: string, d: string, x: string, y: string, z: string)
    requires a != b && b != c && c != a
    ensures var q := Overwrite(Overwrite(given, a, x), b, y);
            (if Get(q, c) != "" then Set(q, c, z) else q) - {d}
            == map key | key in given && key != d ::
                 if key == a && x != "" && Get(given, key) != "" then [x]
                 else if key == b && y != "" && Get(given, key) != "" then [y]
                 else if key == c && Get(given, key) != "" then [z]
                 else given[key]
  {
    var q1 := Overwrite(given, a, x);
    assert Get(q1, b) == Get(given, b) && Get(q1, c) == Get(given, c);
    var q2 := Overwrite(q1, b, y);
    assert Get(q2, c) == Get(given, c);
  }

  lemma NamesDiffer()
    ensures "MediaSourceId" != "ItemId" && "ItemId" != "UserId" && "UserId" != "MediaSourceId"
    ensures "api_key" !in {"MediaSourceId", "ItemId", "UserId"}
  {
    assert "api_key"[0] == 'a' && "MediaSourceId"[0] == 'M' && "ItemId"[0] == 'I' && "UserId"[0] == 'U';
  }

  // The one segment replaced wherever it stands.
  function Substituted(path: string, from: string, replacement: string): string
  {
    Join(ReplacedBy(Split(path, '/'), map[from := replacement]), "/")
  }

  // The query for the client, parameter by parameter.
  function ClientQuery(query: Values, virtualItemID: string, virtualMediaSourceID: string, proxyUserID: string): Values
  {
    map key | key in query && key != "api_key" ::
      if key == "MediaSourceId" && virtualMediaSourceID != "" && Get(query, key) != "" then [virtualMediaSourceID]
      else if key == "ItemId" && virtualItemID != "" && Get(query, key) != "" then [virtualItemID]
      else if key == "UserId" && Get(query, key) != "" then [proxyUserID]
      else query[key]
  }

  // ---------- the stream request ----------

  const ID_PARAMETERS: seq<string> := ["MediaSourceId", "mediaSourceId", "ItemId", "itemId"]

  // What a query parameter of a stream request becomes.
  function Undone(s: State, query: Values, key: string): seq<string>
    requires key in query
  {
    var id := TrimSpace(Get(query, key));
    if key in ID_PARAMETERS && id != "" && id in s.cache then [s.cache[id].originalID] else query[key]
  }

  method StreamQuery(ids: Store, query: Values) returns (streamQuery: Values)
    requires ids.Valid()
    modifies ids
    ensures ids.Valid() && ids.Repr >= old(ids.Repr) && fresh(ids.Repr - old(ids.Repr))
    ensures ids.clock >= old(ids.clock) && ids.drawn == old(ids.drawn)
    ensures old(Coherent(ids.Model())) ==> ids.Model() == old(ids.Model())
    ensures streamQuery.Keys == query.Keys
    ensures old(Coherent(ids.Model())) ==>
              forall key | key in query :: streamQuery[key] == Undone(ids.Model(), query, key)
  {
    ghost var s, since := ids.Model(), ids.clock;
    streamQuery := query;
    for i := 0 to |ID_PARAMETERS|
      invariant ids.Valid() && ids.Repr >= old(ids.Repr) && fresh(ids.Repr - old(ids.Repr))
      invariant ids.clock >= since && ids.drawn == old(ids.drawn)
      invariant Coherent(s) ==> ids.Model() == s
      invariant streamQuery.Keys == query.Keys
      invariant Coherent(s) ==> UndoneSoFar(s, query, ID_PARAMETERS[..i], streamQuery)
    {
      ParametersDistinct(i);
      ghost var before := streamQuery;
      streamQuery := UndoParameter(ids, streamQuery, ID_PARAMETERS[i]);
      if Coherent(s) {
        UndoneStep(s, query, before, ID_PARAMETERS[i], ID_PARAMETERS[..i]);
      }
    }
    assert ID_PARAMETERS[..|ID_PARAMETERS|] == ID_PARAMETERS;
  }

  ghost predicate UndoneSoFar(s: State, query: Values, done: seq<string>, q: Values)
  {
    q.Keys == query.Keys && forall key | key in query ::
      q[key] == if key in done then Undone(s, query, key) else query[key]
  }

  // One parameter undone.
  function UndoOne(s: State, q: Values, param: string): Values
  {
    var id := TrimSpace(Get(q, param));
    if id != "" && id in s.cache then Set(q, param, s.cache[id].originalID) else q
  }

  lemma UndoneStep(s: State, query: Values, q: Values, param: string, done: seq<string>)
    requires param !in done && param in ID_PARAMETERS && UndoneSoFar(s, query, done, q)
    ensures UndoneSoFar(s, query, done + [param], UndoOne(s, q, param))
  {
    if param !in query {
      assert Get(q, param) == "" && TrimSpace("") == "";
    } else {
      assert Get(q, param) == Get(query, param);
    }
  }

  method UndoParameter(ids: Store, q: Values, param: string) returns (q': Values)
    requires ids.Valid()
    modifies ids
    ensures ids.Valid() && ids.Repr >= old(ids.Repr) && fresh(ids.Repr - old(ids.Repr))
    ensures ids.clock >= old(ids.clock) && ids.drawn == old(ids.drawn)
    ensures old(Coherent(ids.Model())) ==> ids.Model() == old(ids.Model()) && q' == UndoOne(ids.Model(), q, param)
    ensures q'.Keys == q.Keys
  {
    q' := q;
    var id := TrimSpace(Get(q, param));
    if id != "" {
      var found := ResolveID(ids, id);
      if found.Some? {
        q' := Set(q, param, found.value.0);
      }
    }
  }

  lemma ParametersDistinct(i: nat)
    requires i < |ID_PARAMETERS|
    ensures ID_PARAMETERS[i] !in ID_PARAMETERS[..i]
    ensures ID_PARAMETERS[..i + 1] == ID_PARAMETERS[..i] + [ID_PARAMETERS[i]]
  {}

  method ResolveID(ids: Store, id: string) returns (found: Option<(string, int)>)
    requires ids.Valid()
    modifies ids
    ensures ids.Valid() && ids.Repr >= old(ids.Repr) && fresh(ids.Repr - old(ids.Repr))
    ensures ids.clock >= old(ids.clock) && ids.drawn == old(ids.drawn)
    ensures old(Coherent(ids.Model())) ==> ids.Model() == old(ids.Model())
    ensures old(Coherent(ids.Model())) ==>
              found == if id in ids.Model().cache then Some(PairOf(ids.Model().cache[id])) else None
  {
    ghost var s, ok := ids.Model(), ids.Next().first;
    found := ids.Resolve(id);
    if Coherent(s) {
      ResolveCoherent(s, id, ok);
    }
  }
}
