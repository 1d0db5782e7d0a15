// A playback URL given to the client and sent back as a stream request reaches the upstream as the URL
// the upstream itself had given.
module PlaybackRoundTrip {
  import opened Wrappers
  import opened Text
  import opened IdMap
  import opened Playback

  // ---------- where a segment stands in its path ----------

  lemma {:induction false} BeforeEnds(segments: seq<string>, i: nat)
    requires 0 < i < |segments|
    ensures |Before(segments, i)| > |segments[0]| && Before(segments, i)[|Before(segments, i)| - 1] == '/'
    ensures i > 1 ==> |Before(segments, i)| > 1
    decreases i
  {
    if i > 1 {
      BeforeEnds(segments[1..], i - 1);
    } else {
      assert Before(segments[1..], 0) == "";
    }
  }

  // A text without slashes that does not occur in a path first occurs, once put in for a segment, there.
  lemma FirstThere(before: string, what: string, behind: string, path: string)
    requires before <= path && !Contains(path, what) && '/' !in what && what != []
    requires before != [] && before[|before| - 1] == '/'
    ensures Index(before + what + behind, what) == |before|
  {
    var s := before + what + behind;
    assert OccursAt(s, what, |before|);
    forall j: nat | j < |before|
      ensures !OccursAt(s, what, j)
    {
      if j + |what| <= |before| {
        assert s[j..j + |what|] == path[j..j + |what|];
        assert !OccursAt(path, what, j);
      } else {
        var k := |before| - 1 - j;
        assert s[j + k] == '/' && what[k] in what;
        assert j + |what| <= |s| ==> s[j..j + |what|][k] == s[j + k];
      }
    }
  }

  lemma MarkerKept(a: seq<string>, b: seq<string>)
    requires |a| == |b| && StreamMarker(a) < |a| && forall j | 0 <= j < |a| && j != StreamMarker(a) + 1 :: a[j] == b[j]
    ensures StreamMarker(b) == StreamMarker(a)
  {
    var m := StreamMarker(a);
    assert forall j | 0 <= j <= m :: a[j] == b[j];
  }

  // The original ID is one segment of the path, the one the stream routes look at.
  ghost predicate OnlyStreamSegment(segments: seq<string>, id: string)
  {
    var m := StreamMarker(segments);
    m < |segments| && segments[m + 1] == id && forall j | 0 <= j < |segments| && j != m + 1 :: segments[j] != id
  }

  lemma NamedPieces(segments: seq<string>, i: nat, virtual: string)
    requires i < |segments| && '/' !in virtual && forall p | p in segments :: '/' !in p
    ensures Split(Join(segments[i := virtual], "/"), '/') == segments[i := virtual]
  {
    var named := segments[i := virtual];
    forall p | p in named
      ensures '/' !in p
    {
      var j :| 0 <= j < |named| && named[j] == p;
      assert j != i ==> p == segments[j];
    }
    SplitJoin(named, '/');
  }

  lemma OneReplaced(segments: seq<string>, original: string, virtual: string)
    requires OnlyStreamSegment(segments, original)
    ensures ReplacedBy(segments, map[original := virtual]) == segments[StreamMarker(segments) + 1 := virtual]
    ensures StreamID(segments[StreamMarker(segments) + 1 := virtual]) == virtual
  {
    var m := StreamMarker(segments) + 1;
    ReplacedOnce(segments, m, original, virtual);
    StreamSegment(segments, virtual);
  }

  lemma ReplacedOnce(segments: seq<string>, m: nat, original: string, virtual: string)
    requires m < |segments| && segments[m] == original
    requires forall j | 0 <= j < |segments| && j != m :: segments[j] != original
    ensures ReplacedBy(segments, map[original := virtual]) == segments[m := virtual]
  {}

  lemma StreamSegment(segments: seq<string>, virtual: string)
    requires StreamMarker(segments) < |segments|
    ensures StreamID(segments[StreamMarker(segments) + 1 := virtual]) == virtual
  {
    MarkerKept(segments, segments[StreamMarker(segments) + 1 := virtual]);
  }

  // The client's path splits into the segments with the one exchanged.
  lemma NamedSegments(path: string, original: string, virtual: string)
    requires OnlyStreamSegment(Split(path, '/'), original) && '/' !in virtual
    ensures var segments := Split(path, '/');
            var named := segments[StreamMarker(segments) + 1 := virtual];
            && Substituted(path, original, virtual) == Join(named, "/")
            && Split(Join(named, "/"), '/') == named
            && StreamID(named) == virtual
  {
    var segments := Split(path, '/');
    OneReplaced(segments, original, virtual);
    SplitPieces(path, '/');
    NamedPieces(segments, StreamMarker(segments) + 1, virtual);
  }

  // Both paths are the same around the segment.
  lemma AroundTheSegment(segments: seq<string>, i: nat, virtual: string)
    requires 0 < i < |segments|
    ensures var before, behind := Before(segments, i), Behind(segments, i);
            && Join(segments, "/") == before + segments[i] + behind
            && Join(segments[i := virtual], "/") == before + virtual + behind
            && before != [] && before[|before| - 1] == '/'
  {
    JoinAround(segments, i);
    JoinAround(segments[i := virtual], i);
    AroundSame(segments, segments[i := virtual], i);
    BeforeEnds(segments, i);
  }

  lemma PutBack(before: string, virtual: string, original: string, behind: string)
    requires virtual != [] && '/' !in virtual && before != [] && before[|before| - 1] == '/'
    requires !Contains(before + original + behind, virtual)
    ensures ReplaceFirst(before + virtual + behind, virtual, original) == before + original + behind
    ensures Contains(before + virtual + behind, virtual)
  {
    var path, client := before + original + behind, before + virtual + behind;
    assert path == before + (original + behind);
    FirstThere(before, virtual, behind, path);
    assert client[..|before|] == before && client[|before| + |virtual|..] == behind;
  }

  lemma AroundStream(path: string, original: string, virtual: string) returns (before: string, behind: string)
    requires OnlyStreamSegment(Split(path, '/'), original) && '/' !in virtual
    ensures path == before + original + behind && Substituted(path, original, virtual) == before + virtual + behind
    ensures before != [] && before[|before| - 1] == '/'
  {
    var segments := Split(path, '/');
    var i := StreamMarker(segments) + 1;
    OneReplaced(segments, original, virtual);
    JoinSplit(path, '/');
    AroundTheSegment(segments, i, virtual);
    before, behind := Before(segments, i), Behind(segments, i);
  }

  // There: the stream ID the client sends is the virtual ID. And back: putting the original in for its
  // first occurrence restores the path.
  lemma PathRoundTrip(path: string, original: string, virtual: string)
    requires OnlyStreamSegment(Split(path, '/'), original)
    requires virtual != [] && '/' !in virtual && !Contains(path, virtual)
    ensures var client := Substituted(path, original, virtual);
            && StreamID(Split(client, '/')) == virtual && Contains(client, virtual)
            && ReplaceFirst(client, virtual, original) == path
  {
    NamedSegments(path, original, virtual);
    var before, behind := AroundStream(path, original, virtual);
    PutBack(before, virtual, original, behind);
  }

  // proxyStreamCompat: the first occurrence of the extracted ID gives way to the original. From a path a
  // client was given for an item, that makes the upstream's own path again.
  method UpstreamPath(path: string, originalID: string) returns (upstreamPath: string)
    ensures upstreamPath == ReplaceFirst(path, StreamID(Split(path, '/')), originalID)
    ensures forall own, virtual |
              && OnlyStreamSegment(Split(own, '/'), originalID) && virtual != [] && '/' !in virtual &&
                 !Contains(own, virtual)
              && path == Substituted(own, originalID, virtual) :: upstreamPath == own
  {
    var id := ExtractStreamID(path);
    upstreamPath := ReplaceFirst(path, id, originalID);
    forall own, virtual |
        && OnlyStreamSegment(Split(own, '/'), originalID) && virtual != [] && '/' !in virtual && !Contains(own, virtual)
        && path == Substituted(own, originalID, virtual)
      ensures upstreamPath == own
    {
      PathRoundTrip(own, originalID, virtual);
    }
  }

  lemma TwoSlashes(path: string)
    ensures HasPrefix(path, "//") <==> |path| > 1 && path[0] == '/' && path[1] == '/'
  {
    if |path| > 1 && path[0] == '/' && path[1] == '/' {
      assert path[..2] == "//";
    }
  }

  lemma JoinFirst(first: string, rest: seq<string>)
    requires rest != []
    ensures Join([first] + rest, "/") == first + "/" + Join(rest, "/")
  {
    assert ([first] + rest)[1..] == rest;
  }

  // An absolute path stays one when IDs are replaced in it, and does not begin to look like a host.
  lemma SubstitutedAbsolute(path: string, original: string, virtual: string)
    requires original != "" && virtual != "" && '/' !in virtual && HasPrefix(path, "/") && !HasPrefix(path, "//")
    ensures HasPrefix(Substituted(path, original, virtual), "/") &&
            !HasPrefix(Substituted(path, original, virtual), "//")
  {
    var rest := path[1..];
    assert path == "/" + rest;
    SplitSlash(rest);
    var parts := Split(rest, '/');
    var named := ReplacedBy(parts, map[original := virtual]);
    assert ReplacedBy(Split(path, '/'), map[original := virtual]) == [""] + named;
    JoinFirst("", named);
    var client := Join(named, "/");
    assert Substituted(path, original, virtual) == "/" + client;
    FirstPart(rest, named, original, virtual);
    TwoSlashes(path);
    TwoSlashes("/" + client);
    assert ("/" + client)[..1] == "/";
  }

  lemma FirstPart(rest: string, named: seq<string>, original: string, virtual: string)
    requires original != "" && virtual != "" && '/' !in virtual && (rest != "" ==> rest[0] != '/')
    requires named == ReplacedBy(Split(rest, '/'), map[original := virtual])
    ensures Join(named, "/") != "" ==> Join(named, "/")[0] != '/'
  {
    var parts := Split(rest, '/');
    SplitPieces(rest, '/');
    if rest == "" {
      assert named == [""];
    } else {
      assert parts[0] != "" && parts[0] in parts;
      assert named[0] != "" && named[0][0] in named[0];
    }
  }

  // An absolute path is given to the client as it is, behind the user if the URL has one.
  lemma ClientPathAbsolute(url: Location, original: string, virtual: string)
    requires original != "" && virtual != "" && '/' !in virtual && url.opaque_ == ""
    requires HasPrefix(url.path, "/") && !HasPrefix(url.path, "//")
    ensures var client := Substituted(url.path, original, virtual);
            ClientPath(url, original, virtual)
              == match url.user case None => client case Some(user) => "/" + user + "@" + client
  {
    SubstitutedAbsolute(url.path, original, virtual);
    FinishAbsolute(url.user, Substituted(url.path, original, virtual));
  }

  lemma FinishAbsolute(user: Option<string>, path: string)
    requires HasPrefix(path, "/") && !HasPrefix(path, "//")
    ensures Finish(UserText(user) + path) == match user case None => path case Some(text) => "/" + text + "@" + path
  {
    match user
    case None => NothingBefore(path);
    case Some(text) => FinishUser(text, path);
  }

  lemma NothingBefore(path: string)
    ensures "" + path == path
  {}

  lemma FinishUser(text: string, path: string)
    ensures Finish("//" + text + "@" + path) == "/" + text + "@" + path
  {
    var name := text + "@" + path;
    FinishSlashes(name);
    AfterSlashes(text, path);
  }

  lemma AfterSlashes(text: string, path: string)
    ensures "//" + text + "@" + path == "//" + (text + "@" + path)
    ensures "/" + text + "@" + path == "/" + (text + "@" + path)
  {}

  lemma FinishSlashes(name: string)
    ensures Finish("//" + name) == "/" + name
  {
    assert ("//" + name)[2..] == name;
  }

  lemma VirtualIDShape(id: string)
    requires IsLikelyVirtualID(id)
    ensures id != [] && '/' !in id && Trimmed(id)
  {
    assert id[0] in id && id[31] in id;
  }

  // ---------- the query ----------

  // What a parameter should be for the upstream, given what it was in the upstream's own URL.
  function ForUpstream(s: State, query: Values, key: string, virtualItemID: string, virtualMediaSourceID: string,
                       proxyUserID: string): seq<string>
    requires key in query && (virtualItemID == "" || virtualItemID in s.cache)
    requires virtualMediaSourceID == "" || virtualMediaSourceID in s.cache
  {
    if Get(query, key) == "" then query[key]
    else if key == "MediaSourceId" && virtualMediaSourceID != "" then [s.cache[virtualMediaSourceID].originalID]
    else if key == "ItemId" && virtualItemID != "" then [s.cache[virtualItemID].originalID]
    else if key == "UserId" then [proxyUserID]
    else query[key]
  }

  // An ID parameter the client gets unchanged: the lower-case spellings, and one there is no virtual ID for.
  predicate LeftAlone(key: string, virtualItemID: string, virtualMediaSourceID: string)
  {
    || key == "mediaSourceId" || key == "itemId"
    || (key == "MediaSourceId" && virtualMediaSourceID == "") || (key == "ItemId" && virtualItemID == "")
  }

  ghost predicate NoneOrVirtual(s: State, id: string)
  {
    id == "" || (IsLikelyVirtualID(id) && id in s.cache)
  }

  // Through the client and back, MediaSourceId and ItemId come out as the originals, and every other
  // parameter but UserId and api_key as it was, exactly if none of those left alone held a virtual ID.
  lemma QueryRoundTripIff(s: State, query: Values, key: string, virtualItemID: string, virtualMediaSourceID: string,
                          proxyUserID: string)
    requires NoneOrVirtual(s, virtualItemID) && NoneOrVirtual(s, virtualMediaSourceID)
    requires key in query && key != "api_key"
    ensures var client := ClientQuery(query, virtualItemID, virtualMediaSourceID, proxyUserID);
            var wanted := ForUpstream(s, query, key, virtualItemID, virtualMediaSourceID, proxyUserID);
            && key in client
            && (Undone(s, client, key) == wanted <==>
                (LeftAlone(key, virtualItemID, virtualMediaSourceID) ==> Undone(s, query, key) == query[key]))
  {
    if virtualItemID != "" {
      VirtualIDShape(virtualItemID);
      TrimNothing(virtualItemID);
    }
    if virtualMediaSourceID != "" {
      VirtualIDShape(virtualMediaSourceID);
      TrimNothing(virtualMediaSourceID);
    }
    var client := ClientQuery(query, virtualItemID, virtualMediaSourceID, proxyUserID);
    assert Get(query, key) == "" ==> TrimSpace(Get(client, key)) == "";
    assert key in ID_PARAMETERS <==>
           key == "MediaSourceId" || key == "mediaSourceId" || key == "ItemId" || key == "itemId";
  }

  lemma NoMarkerBefore(first: string, parts: seq<string>)
    requires !IsMarker(first) && parts != []
    ensures StreamID([first] + parts) == StreamID(parts)
  {
    assert ([first] + parts)[1..] == parts;
  }

  lemma SplitSlash(rest: string)
    ensures Split("/" + rest, '/') == [""] + Split(rest, '/')
  {
    assert "/" + rest == "" + ['/'] + rest;
    SplitHead("", rest, '/');
  }

  // A user in the path is one segment more, and no marker.
  lemma UserSegment(user: string, path: string)
    requires '/' !in user && HasPrefix(path, "/")
    ensures StreamID(Split("/" + user + "@" + path, '/')) == StreamID(Split(path, '/'))
  {
    var rest, name := path[1..], user + "@";
    var parts := Split(rest, '/');
    assert path == "/" + rest;
    SplitSlash(rest);
    assert name + path == name + ['/'] + rest;
    SplitHead(name, rest, '/');
    assert "/" + user + "@" + path == "/" + (name + path);
    SplitSlash(name + path);
    assert name[|user|] == '@' && "Videos"[5] == 's' && "Audio"[4] == 'o';
    NoMarkerBefore(name, parts);
    NoMarkerBefore("", [name] + parts);
    NoMarkerBefore("", parts);
  }

  // ---------- the original in more than one segment ----------

  lemma OccursBetween(a: string, v: string, c: string)
    ensures OccursAt(a + v + c, v, |a|)
  {
    assert (a + v + c)[|a|..|a| + |v|] == v;
  }

  // What is replaced lies before an occurrence or behind it: the occurrence is kept.
  lemma OccursKept(text: string, v: string, p: nat, i: nat, n: nat, replacement: string) returns (at: nat)
    requires OccursAt(text, v, p) && i + n <= |text| && (p + |v| <= i || i + n <= p)
    ensures OccursAt(text[..i] + replacement + text[i + n..], v, at)
  {
    var now := text[..i] + replacement + text[i + n..];
    at := if p + |v| <= i then p else p - n + |replacement|;
    assert now[at..at + |v|] == text[p..p + |v|];
  }

  lemma ReplacedAt(text: string, x: string, replacement: string)
    requires Index(text, x) <= |text|
    ensures var i := Index(text, x);
            i + |x| <= |text| && ReplaceFirst(text, x, replacement) == text[..i] + replacement + text[i + |x|..]
  {}

  lemma NothingReplaced(text: string, x: string, replacement: string)
    requires Index(text, x) > |text|
    ensures ReplaceFirst(text, x, replacement) == text
  {}

  // Two occurrences kept apart by a slash: no text without slashes touches both.
  lemma OneIsLeft(text: string, v: string, p: nat, k: nat, q: nat, x: string, replacement: string) returns (at: nat)
    requires OccursAt(text, v, p) && OccursAt(text, v, q) && p + |v| <= k < q <= |text| && text[k] == '/' && '/' !in x
    ensures OccursAt(ReplaceFirst(text, x, replacement), v, at)
  {
    var i := Index(text, x);
    if i > |text| {
      NothingReplaced(text, x, replacement);
      return p;
    }
    ReplacedAt(text, x, replacement);
    NotAcross(text, x, i, k);
    at := OccursKept(text, v, if i > k then p else q, i, |x|, replacement);
  }

  lemma NotAcross(text: string, x: string, i: nat, k: nat)
    requires OccursAt(text, x, i) && '/' !in x && k < |text| && text[k] == '/'
    ensures i > k || i + |x| <= k
  {
    assert forall p | i <= p < i + |x| :: text[p] == x[p - i] && x[p - i] in x;
  }

  lemma TwoPlaces(a: string, v: string, b: string, c: string) returns (k: nat)
    requires '/' in b
    ensures var text := a + v + b + v + c;
            && OccursAt(text, v, |a|) && OccursAt(text, v, |a| + |v| + |b|)
            && |a| + |v| <= k < |a| + |v| + |b| && text[k] == '/'
  {
    OccursBetween(a, v, b + v + c);
    OccursBetween(a + v + b, v, c);
    Places(a, v, b, c);
    var d :| 0 <= d < |b| && b[d] == '/';
    k := |a| + |v| + d;
  }

  lemma Places(a: string, v: string, b: string, c: string)
    ensures a + v + b + v + c == a + v + (b + v + c)
  {}

  // Two segments of a path, and what is around and between them.
  lemma TwoSegments(segments: seq<string>, i: nat, j: nat) returns (a: string, b: string, c: string)
    requires i < j < |segments| && segments[i] == segments[j]
    ensures Join(segments, "/") == a + segments[i] + b + segments[i] + c && '/' in b
  {
    var rest, v, k := segments[i + 1..], segments[i], j - i - 1;
    assert rest[k] == v;
    JoinAround(segments, i);
    JoinAround(rest, k);
    BehindIs(segments, i);
    Chained(Join(segments, "/"), Before(segments, i), v, Join(rest, "/"), Before(rest, k), Behind(rest, k));
    a, b, c := Before(segments, i), "/" + Before(rest, k), Behind(rest, k);
    assert b[0] == '/';
  }

  lemma Chained(whole: string, a: string, v: string, rest: string, b: string, c: string)
    requires whole == a + v + ("/" + rest) && rest == b + v + c
    ensures whole == a + v + ("/" + b) + v + c
  {
    Nested(a, v, b, c);
  }

  lemma BehindIs(segments: seq<string>, i: nat)
    requires i + 1 < |segments|
    ensures Behind(segments, i) == "/" + Join(segments[i + 1..], "/")
  {}

  lemma Nested(a: string, v: string, b: string, c: string)
    ensures a + v + ("/" + (b + v + c)) == a + v + ("/" + b) + v + c
  {}

  lemma StreamIDPiece(text: string)
    ensures '/' !in StreamID(Split(text, '/'))
  {
    SplitPieces(text, '/');
    var parts := Split(text, '/');
    assert forall i | 0 <= i < |parts| :: parts[i] in parts;
  }

  // If another segment is the original too, the virtual ID stays in the path the upstream is asked for.
  lemma TwiceStays(path: string, original: string, virtual: string, front: string)
    requires '/' !in virtual && StreamMarker(Split(path, '/')) < |Split(path, '/')|
    requires Split(path, '/')[StreamMarker(Split(path, '/')) + 1] == original
    requires !OnlyStreamSegment(Split(path, '/'), original)
    ensures var client := front + Substituted(path, original, virtual);
            Contains(ReplaceFirst(client, StreamID(Split(client, '/')), original), virtual)
  {
    var segments := Split(path, '/');
    var m := StreamMarker(segments) + 1;
    var j :| 0 <= j < |segments| && j != m && segments[j] == original;
    var named := ReplacedBy(segments, map[original := virtual]);
    var a, b, c := TwoSegments(named, if j < m then j else m, if j < m then m else j);
    var client := front + Substituted(path, original, virtual);
    FrontOf(front, a, virtual, b, c);
    assert client == (front + a) + virtual + b + virtual + c;
    StreamIDPiece(client);
    var k := TwoPlaces(front + a, virtual, b, c);
    var id := StreamID(Split(client, '/'));
    var at := OneIsLeft(client, virtual, |front + a|, k, |front + a| + |virtual| + |b|, id, original);
    OccursContains(ReplaceFirst(client, id, original), virtual, at);
  }

  lemma FrontOf(front: string, a: string, v: string, b: string, c: string)
    ensures front + (a + v + b + v + c) == (front + a) + v + b + v + c
  {}

  // ---------- the whole URL ----------

  // A URL whose stream segment is the item's original ID.
  ghost predicate StreamOf(url: Location, original: string)
  {
    var segments := Split(url.path, '/');
    && url.opaque_ == "" && HasPrefix(url.path, "/") && !HasPrefix(url.path, "//")
    && original != "" && StreamMarker(segments) < |segments| && segments[StreamMarker(segments) + 1] == original
    && (url.user.Some? ==> '/' !in url.user.value)
  }

  // An upstream's playback URL, given to the client and asked for by it: the upstream is asked for its own
  // path exactly if the URL named no user and no other segment is the original ID. With the one segment,
  // the ID in the request names the item and its server.
  lemma LocationRoundTripIff(s: State, url: Location, client: Location, virtualItemID: string)
    requires IsLikelyVirtualID(virtualItemID) && virtualItemID in s.cache && !Contains(url.path, virtualItemID)
    requires StreamOf(url, s.cache[virtualItemID].originalID)
    requires client.path == ClientPath(url, s.cache[virtualItemID].originalID, virtualItemID)
    ensures var original := s.cache[virtualItemID].originalID;
            && (ReplaceFirst(client.path, StreamID(Split(client.path, '/')), original) == url.path <==>
                url.user.None? && OnlyStreamSegment(Split(url.path, '/'), original))
            && (OnlyStreamSegment(Split(url.path, '/'), original) ==>
                && StreamID(Split(client.path, '/')) == virtualItemID
                && Resolve(s, StreamID(Split(client.path, '/')), true).1 == Some(PairOf(s.cache[virtualItemID])))
  {
    var original := s.cache[virtualItemID].originalID;
    VirtualIDShape(virtualItemID);
    ClientPathAbsolute(url, original, virtualItemID);
    var path := Substituted(url.path, original, virtualItemID);
    if OnlyStreamSegment(Split(url.path, '/'), original) {
      PathRoundTrip(url.path, original, virtualItemID);
      if url.user.Some? {
        UserLengthens(url.path, path, url.user.value, original, virtualItemID);
      }
    } else {
      var front := match url.user case None => "" case Some(user) => "/" + user + "@";
      NothingBefore(path);
      assert client.path == front + path;
      TwiceStays(url.path, original, virtualItemID, front);
    }
  }

  // With a user in it the path that comes back is longer than the upstream's own.
  lemma UserLengthens(own: string, path: string, user: string, original: string, virtual: string)
    requires HasPrefix(own, "/") && !HasPrefix(own, "//") && original != "" && virtual != "" && '/' !in virtual &&
             '/' !in user
    requires path == Substituted(own, original, virtual) && Contains(path, virtual)
    requires StreamID(Split(path, '/')) == virtual && ReplaceFirst(path, virtual, original) == own
    ensures var client := "/" + user + "@" + path;
            StreamID(Split(client, '/')) == virtual && ReplaceFirst(client, virtual, original) != own
  {
    SubstitutedAbsolute(own, original, virtual);
    UserSegment(user, path);
    SameLength(path, virtual, original);
    OccursBehind("/" + user + "@", path, virtual);
    SameLength("/" + user + "@" + path, virtual, original);
  }

  // It happens: with the original twice in the path, the upstream is asked for a path with a virtual ID.
  const DOUBLED := Location("", None, "/Videos/a/a/s", map[], "")

  lemma DoubledSegment(s: State, virtualItemID: string)
    requires IsLikelyVirtualID(virtualItemID) && virtualItemID in s.cache && s.cache[virtualItemID].originalID == "a"
    ensures var client := ClientPath(DOUBLED, "a", virtualItemID);
            ReplaceFirst(client, StreamID(Split(client, '/')), "a") != DOUBLED.path
  {
    DoubledParts();
    ShorterContainsNot(DOUBLED.path, virtualItemID);
    LocationRoundTripIff(s, DOUBLED, DOUBLED.(path := ClientPath(DOUBLED, "a", virtualItemID)), virtualItemID);
  }

  lemma ShorterContainsNot(text: string, what: string)
    requires |text| < |what|
    ensures !Contains(text, what)
  {}

  lemma DoubledParts()
    ensures var segments := Split("/Videos/a/a/s", '/');
            segments == ["", "Videos", "a", "a", "s"] && StreamMarker(segments) == 1 &&
              !OnlyStreamSegment(segments, "a")
  {
    var segments := ["", "Videos", "a", "a", "s"];
    DoubledJoin();
    assert forall p | p in segments :: '/' !in p;
    SplitJoin(segments, '/');
    DoubledMarker(segments);
  }

  lemma DoubledMarker(segments: seq<string>)
    requires segments == ["", "Videos", "a", "a", "s"]
    ensures StreamMarker(segments) == 1 && !OnlyStreamSegment(segments, "a")
  {
    assert segments[1..] == ["Videos", "a", "a", "s"];
    assert StreamMarker(segments[1..]) == 0;
    assert segments[3] == "a";
  }

  lemma DoubledJoin()
    ensures Join(["", "Videos", "a", "a", "s"], "/") == "/Videos/a/a/s"
  {
    var parts := ["", "Videos", "a", "a", "s"];
    assert parts[4..] == ["s"] && Join(parts[4..], "/") == "s";
    assert parts[3..][1..] == parts[4..] && Join(parts[3..], "/") == "a" + "/" + "s";
    assert parts[2..][1..] == parts[3..] && Join(parts[2..], "/") == "a" + "/" + ("a" + "/" + "s");
    assert parts[1..][1..] == parts[2..] && Join(parts[1..], "/") == "Videos/a/a/s";
  }

  lemma SameLength(text: string, what: string, replacement: string)
    requires Contains(text, what)
    ensures |ReplaceFirst(text, what, replacement)| == |text| - |what| + |replacement|
  {}

  lemma OccursLater(before: string, text: string, what: string, i: nat)
    requires OccursAt(text, what, i)
    ensures OccursAt(before + text, what, |before| + i)
  {
    assert (before + text)[|before| + i..|before| + i + |what|] == text[i..i + |what|];
  }

  lemma OccursBehind(before: string, text: string, what: string)
    requires Contains(text, what)
    ensures Contains(before + text, what)
  {
    OccursLater(before, text, what, Index(text, what));
    OccursContains(before + text, what, |before| + Index(text, what));
  }

  // A media source that has an ID or not, whatever its parameters: the request reaches the upstream with
  // the original path and parameters.
  lemma LocationRoundTrip(s: State, url: Location, client: Location, virtualItemID: string,
                          virtualMediaSourceID: string, proxyUserID: string)
    requires IsLikelyVirtualID(virtualItemID) && virtualItemID in s.cache && !Contains(url.path, virtualItemID)
    requires NoneOrVirtual(s, virtualMediaSourceID)
    requires StreamOf(url, s.cache[virtualItemID].originalID) && url.user.None?
    requires OnlyStreamSegment(Split(url.path, '/'), s.cache[virtualItemID].originalID)
    requires forall key | key in url.query && LeftAlone(key, virtualItemID, virtualMediaSourceID) ::
               Undone(s, url.query, key) == url.query[key]
    requires client.path == ClientPath(url, s.cache[virtualItemID].originalID, virtualItemID)
    requires client.query == ClientQuery(url.query, virtualItemID, virtualMediaSourceID, proxyUserID)
    ensures Resolve(s, StreamID(Split(client.path, '/')), true).1 == Some(PairOf(s.cache[virtualItemID]))
    ensures ReplaceFirst(client.path, StreamID(Split(client.path, '/')), s.cache[virtualItemID].originalID) == url.path
    ensures forall key | key in url.query && key != "api_key" ::
              && key in client.query
              && Undone(s, client.query, key)
                 == ForUpstream(s, url.query, key, virtualItemID, virtualMediaSourceID, proxyUserID)
  {
    LocationRoundTripIff(s, url, client, virtualItemID);
    forall key | key in url.query && key != "api_key"
      ensures key in client.query
      ensures Undone(s, client.query, key)
              == ForUpstream(s, url.query, key, virtualItemID, virtualMediaSourceID, proxyUserID)
    {
      QueryRoundTripIff(s, url.query, key, virtualItemID, virtualMediaSourceID, proxyUserID);
    }
  }
}
