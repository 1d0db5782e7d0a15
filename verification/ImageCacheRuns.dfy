// Whole runs of the image cache: what a hit returns, and that it is a stack algorithm.
module ImageCacheRuns {
  import opened Wrappers
  import opened ImageCache

  // ---------- one accepted Put ----------

  // The new entry stays exactly when it fits by itself.
  lemma NewKeySurvivesIff(maxBytes: int, maxItemSize: int, c: seq<Entry>, e: Entry)
    requires DistinctKeys(c) && |e.body| <= maxItemSize
    ensures Has(Store(maxBytes, maxItemSize, c, e), e.key) <==> |e.body| <= maxBytes
  {
    var all := [e] + Without(c, e.key);
    var kept := Evict(maxBytes, all);
    assert all[..1] == [e] && Total([e]) == |e.body|;
    if kept != [] {
      assert kept[0] == e;
      assert kept[..1] == [e];
      TotalPrefix(kept, 1, |kept|);
      assert kept[..|kept|] == kept;
    } else {
      EvictLongest(maxBytes, all, 1);
    }
  }

  // ---------- a hit returns what was last accepted ----------

  datatype Op = OpGet(key: string) | OpPut(e: Entry)

  function Apply(maxBytes: int, maxItemSize: int, c: seq<Entry>, op: Op): seq<Entry>
  {
    match op
    case OpGet(key) => Touch(c, key)
    case OpPut(e) => Store(maxBytes, maxItemSize, c, e)
  }

  // The run's last operation is ops[|ops| - 1].
  function Run(maxBytes: int, maxItemSize: int, ops: seq<Op>): seq<Entry>
    decreases |ops|
  {
    if ops == [] then []
    else Apply(maxBytes, maxItemSize, Run(maxBytes, maxItemSize, ops[..|ops| - 1]), ops[|ops| - 1])
  }

  function LastAccepted(maxItemSize: int, ops: seq<Op>, key: string): Option<Entry>
    decreases |ops|
  {
    if ops == [] then None
    else
      var op := ops[|ops| - 1];
      if op.OpPut? && op.e.key == key && |op.e.body| <= maxItemSize then Some(op.e)
      else LastAccepted(maxItemSize, ops[..|ops| - 1], key)
  }

  lemma TouchMembers(c: seq<Entry>, key: string)
    requires DistinctKeys(c)
    ensures DistinctKeys(Touch(c, key))
    ensures forall e :: e in Touch(c, key) <==> e in c
  {
    var i := Find(c, key);
    if i < |c| {
      WithoutDistinct(c, key);
      assert Touch(c, key) == [c[i]] + Without(c, key);
      forall e | e in c && e.key == key
        ensures e == c[i]
      {
        var j :| 0 <= j < |c| && c[j] == e;
        FindUnique(c, j);
      }
    }
  }

  lemma StoreMembers(maxBytes: int, maxItemSize: int, c: seq<Entry>, e: Entry)
    requires DistinctKeys(c)
    ensures DistinctKeys(Store(maxBytes, maxItemSize, c, e))
    ensures |e.body| <= maxItemSize ==>
              forall x | x in Store(maxBytes, maxItemSize, c, e) :: x == e || (x in c && x.key != e.key)
  {
    WithoutDistinct(c, e.key);
    var all := [e] + Without(c, e.key);
    var kept := Evict(maxBytes, all);
    forall x | x in kept
      ensures x == e || (x in c && x.key != e.key)
    {
      var j :| 0 <= j < |kept| && kept[j] == x;
      assert all[j] == x;
    }
  }

  lemma {:induction false} HitIsLastAccepted(maxBytes: int, maxItemSize: int, ops: seq<Op>)
    ensures var c := Run(maxBytes, maxItemSize, ops);
            && DistinctKeys(c)
            && (Total(c) <= maxBytes || c == [])
            && forall e | e in c :: LastAccepted(maxItemSize, ops, e.key) == Some(e)
    decreases |ops|
  {
    if ops != [] {
      var before, op := ops[..|ops| - 1], ops[|ops| - 1];
      HitIsLastAccepted(maxBytes, maxItemSize, before);
      var c := Run(maxBytes, maxItemSize, before);
      match op
      case OpGet(key) =>
        TouchMembers(c, key);
        TouchTotal(c, key);
      case OpPut(e) =>
        StoreMembers(maxBytes, maxItemSize, c, e);
    }
  }

  lemma TouchTotal(c: seq<Entry>, key: string)
    ensures Total(Touch(c, key)) == Total(c)
  {
    var i := Find(c, key);
    if i < |c| {
      RemoveTotal(c, i);
      assert ([c[i]] + Remove(c, i))[1..] == Remove(c, i);
    }
  }

  // ---------- requests as handleImage makes them ----------

  datatype Response = Response(status: int, headers: Headers, body: Body)

  // Looks in the cache; on a miss fetches, and stores what came with status 200. None: the fetch failed.
  function Request(maxBytes: int, maxItemSize: int, fetch: string -> Option<Response>, c: seq<Entry>,
                   key: string): seq<Entry>
  {
    if Has(c, key) then Touch(c, key)
    else
      match fetch(key)
      case Some(r) =>
        if r.status == 200 then Store(maxBytes, maxItemSize, c, Entry(key, r.status, r.headers, r.body)) else c
      case None => c
  }

  // handleImage with the network answering fetch(key). None: the fetch failed and nothing is shown.
  method HandleImage(cache: Cache, fetch: string -> Option<Response>, key: string) returns (shown: Option<Response>)
    requires cache.Valid() && cache.Fits()
    modifies cache, cache.ll
    ensures cache.Valid() && cache.Fits()
    ensures cache.contents == Request(cache.maxBytes, cache.maxItemSize, fetch, old(cache.contents), key)
    ensures shown == if Has(old(cache.contents), key) then
                       var e := old(cache.contents)[Find(old(cache.contents), key)];
                       Some(Response(e.status, e.headers, e.body))
                     else fetch(key)
  {
    var cached := cache.Get(key);
    if cached.Some? {
      return Some(Response(cached.value.status, cached.value.headers, cached.value.body));
    }
    var fetched := fetch(key);
    if fetched.Some? && fetched.value.status == 200 {
      cache.Put(key, fetched.value.status, fetched.value.headers, fetched.value.body);
    }
    return fetched;
  }

  function Serve(maxBytes: int, maxItemSize: int, fetch: string -> Option<Response>, trace: seq<string>): seq<Entry>
    decreases |trace|
  {
    if trace == [] then []
    else
      Request(maxBytes, maxItemSize, fetch, Serve(maxBytes, maxItemSize, fetch, trace[..|trace| - 1]),
        trace[|trace| - 1])
  }

  predicate Cacheable(maxItemSize: int, fetch: string -> Option<Response>, key: string)
  {
    fetch(key).Some? && fetch(key).value.status == 200 && |fetch(key).value.body| <= maxItemSize
  }

  function EntryFor(maxItemSize: int, fetch: string -> Option<Response>, key: string): Entry
    requires Cacheable(maxItemSize, fetch, key)
  {
    var r := fetch(key).value;
    Entry(key, r.status, r.headers, r.body)
  }

  // The cacheable keys requested so far, most recent first, each once. There is no bound here.
  function Recency(maxItemSize: int, fetch: string -> Option<Response>, trace: seq<string>): seq<Entry>
    decreases |trace|
  {
    if trace == [] then []
    else
      var before, key := Recency(maxItemSize, fetch, trace[..|trace| - 1]), trace[|trace| - 1];
      if Cacheable(maxItemSize, fetch, key) then [EntryFor(maxItemSize, fetch, key)] + Without(before, key) else before
  }

  lemma {:induction false} RecencyEntries(maxItemSize: int, fetch: string -> Option<Response>, trace: seq<string>)
    ensures var l := Recency(maxItemSize, fetch, trace);
            && DistinctKeys(l)
            && forall e | e in l :: Cacheable(maxItemSize, fetch, e.key) && e == EntryFor(maxItemSize, fetch, e.key)
    decreases |trace|
  {
    if trace != [] {
      RecencyEntries(maxItemSize, fetch, trace[..|trace| - 1]);
      WithoutDistinct(Recency(maxItemSize, fetch, trace[..|trace| - 1]), trace[|trace| - 1]);
    }
  }

  // ---------- eviction keeps a prefix; which one ----------

  lemma EvictIs(maxBytes: int, c: seq<Entry>, n: nat)
    requires n <= |c| && (Total(c[..n]) <= maxBytes || n == 0)
    requires n == |c| || Total(c[..n + 1]) > maxBytes
    ensures Evict(maxBytes, c) == c[..n]
  {
    var m := |Evict(maxBytes, c)|;
    assert Evict(maxBytes, c) == c[..m];
    if m < n {
      EvictLongest(maxBytes, c, n);
      assert false;
    } else if m > n {
      TotalPrefix(c, n + 1, m);
      assert false;
    }
  }

  // What lies beyond an overflow does not matter.
  lemma EvictPrefix(maxBytes: int, x: seq<Entry>, y: seq<Entry>, n: nat)
    requires x <= y && n <= |y| && n <= |x| + 1
    requires x == y || Total(y[..n]) > maxBytes
    ensures Evict(maxBytes, x) == Evict(maxBytes, y)
  {
    if x != y {
      var m := |Evict(maxBytes, y)|;
      assert Evict(maxBytes, y) == y[..m];
      if m > |x| {
        TotalPrefix(y, n, m);
        assert false;
      }
      assert x[..m] == y[..m];
      if m < |x| {
        EvictLongest(maxBytes, y, m + 1);
        assert x[..m + 1] == y[..m + 1];
      }
      EvictIs(maxBytes, x, m);
    }
  }

  // Moving an entry to the front commutes with cutting the list behind it.
  lemma FrontCut(l: seq<Entry>, i: nat, n: nat)
    requires i < n <= |l|
    ensures ([l[i]] + Remove(l, i))[..n] == [l[i]] + Remove(l[..n], i)
    ensures Total(([l[i]] + Remove(l, i))[..n]) == Total(l[..n])
  {
    RemoveTotal(l[..n], i);
    assert ([l[i]] + Remove(l[..n], i))[1..] == Remove(l[..n], i);
  }

  lemma HitStep(maxBytes: int, l: seq<Entry>, key: string)
    requires DistinctKeys(l) && Has(Evict(maxBytes, l), key)
    ensures Has(l, key)
    ensures Touch(Evict(maxBytes, l), key) == Evict(maxBytes, [l[Find(l, key)]] + Without(l, key))
  {
    var c, n := Evict(maxBytes, l), |Evict(maxBytes, l)|;
    var i := Find(c, key);
    assert c == l[..n] && l[i].key == key;
    FindUnique(l, i);
    FrontCut(l, i, n);
    if n < |l| {
      EvictLongest(maxBytes, l, n + 1);
      FrontCut(l, i, n + 1);
    }
    EvictIs(maxBytes, [l[i]] + Remove(l, i), n);
  }

  lemma MissStep(maxBytes: int, l: seq<Entry>, e: Entry)
    requires DistinctKeys(l) && !Has(Evict(maxBytes, l), e.key)
    requires Has(l, e.key) ==> l[Find(l, e.key)] == e
    ensures Evict(maxBytes, [e] + Evict(maxBytes, l)) == Evict(maxBytes, [e] + Without(l, e.key))
  {
    var c, n, i := Evict(maxBytes, l), |Evict(maxBytes, l)|, Find(l, e.key);
    assert c == l[..n];
    assert forall j | 0 <= j < |c| :: l[j] == c[j] && c[j].key != e.key;
    assert i >= n;
    if n < |l| {
      EvictLongest(maxBytes, l, n + 1);
      MissOverflow(maxBytes, l, e, n, i);
    } else {
      assert Without(l, e.key) == l == c;
    }
  }

  // The first n entries do not hold the key, and with one more they are too much.
  lemma MissOverflow(maxBytes: int, l: seq<Entry>, e: Entry, n: nat, i: nat)
    requires n < |l| && Total(l[..n + 1]) > maxBytes
    requires n <= i == Find(l, e.key) && (i < |l| ==> l[i] == e)
    ensures Evict(maxBytes, [e] + l[..n]) == Evict(maxBytes, [e] + Without(l, e.key))
  {
    var x, y := [e] + l[..n], [e] + Without(l, e.key);
    assert x <= y;
    assert l[..n + 1] == l[..n] + [l[n]];
    TotalAppend(l[..n], [l[n]]);
    TotalAppend([e], l[..n]);
    if i == n {
      assert y[..n + 1] == x;
      EvictPrefix(maxBytes, x, y, n + 1);
    } else {
      assert y[..n + 2] == x + [l[n]];
      TotalAppend(x, [l[n]]);
      EvictPrefix(maxBytes, x, y, n + 2);
    }
  }

  lemma RequestStep(maxBytes: int, maxItemSize: int, fetch: string -> Option<Response>, l: seq<Entry>, key: string)
    requires DistinctKeys(l)
    requires forall e | e in l :: Cacheable(maxItemSize, fetch, e.key) && e == EntryFor(maxItemSize, fetch, e.key)
    ensures Request(maxBytes, maxItemSize, fetch, Evict(maxBytes, l), key)
         == Evict(maxBytes,
                  if Cacheable(maxItemSize, fetch, key) then [EntryFor(maxItemSize, fetch, key)] + Without(l, key)
                  else l)
  {
    var c := Evict(maxBytes, l);
    if Has(c, key) {
      var e := c[Find(c, key)];
      assert e in l;
      assert Has(l, key) && l[Find(l, key)] in l;
      HitStep(maxBytes, l, key);
    } else if Cacheable(maxItemSize, fetch, key) {
      assert Has(l, key) ==> l[Find(l, key)] in l;
      assert Without(c, key) == c;
      MissStep(maxBytes, l, EntryFor(maxItemSize, fetch, key));
    }
  }

  // ---------- the cache is a stack algorithm ----------

  // When each key always gets the same response, the cache holds, after any requests, exactly what the
  // byte budget lets through of the unbounded recency list.
  lemma {:induction false} CacheIsRecencyPrefix(maxBytes: int, maxItemSize: int, fetch: string -> Option<Response>,
                                                trace: seq<string>)
    ensures Serve(maxBytes, maxItemSize, fetch, trace) == Evict(maxBytes, Recency(maxItemSize, fetch, trace))
    decreases |trace|
  {
    if trace != [] {
      var before := trace[..|trace| - 1];
      CacheIsRecencyPrefix(maxBytes, maxItemSize, fetch, before);
      RecencyEntries(maxItemSize, fetch, before);
      RequestStep(maxBytes, maxItemSize, fetch, Recency(maxItemSize, fetch, before), trace[|trace| - 1]);
    }
  }

  lemma KeptIff(maxBytes: int, l: seq<Entry>, key: string)
    requires DistinctKeys(l)
    ensures Has(Evict(maxBytes, l), key) <==> Has(l, key) && Total(l[..Find(l, key) + 1]) <= maxBytes
  {
    var c, i := Evict(maxBytes, l), Find(l, key);
    var n := |c|;
    assert c == l[..n] && forall j | 0 <= j < n :: c[j] == l[j];
    if Has(c, key) {
      var j := Find(c, key);
      assert l[j] == c[j];
      FindUnique(l, j);
      TotalPrefix(l, i + 1, n);
    } else if n <= i < |l| {
      EvictLongest(maxBytes, l, i + 1);
    }
  }

  // A request hits exactly when the key and all that was requested since then fit together.
  lemma HitIff(maxBytes: int, maxItemSize: int, fetch: string -> Option<Response>, trace: seq<string>, key: string)
    ensures var l := Recency(maxItemSize, fetch, trace);
            Has(Serve(maxBytes, maxItemSize, fetch, trace), key) <==>
            Has(l, key) && Total(l[..Find(l, key) + 1]) <= maxBytes
  {
    CacheIsRecencyPrefix(maxBytes, maxItemSize, fetch, trace);
    RecencyEntries(maxItemSize, fetch, trace);
    KeptIff(maxBytes, Recency(maxItemSize, fetch, trace), key);
  }

  // Inclusion: with the same requests, the smaller cache's list is a prefix of the larger one's, so
  // the larger one hits whenever the smaller one does.
  lemma Inclusion(small: int, large: int, maxItemSize: int, fetch: string -> Option<Response>, trace: seq<string>,
                  key: string)
    requires small <= large
    ensures Serve(small, maxItemSize, fetch, trace) <= Serve(large, maxItemSize, fetch, trace)
    ensures Has(Serve(small, maxItemSize, fetch, trace), key) ==> Has(Serve(large, maxItemSize, fetch, trace), key)
  {
    CacheIsRecencyPrefix(small, maxItemSize, fetch, trace);
    CacheIsRecencyPrefix(large, maxItemSize, fetch, trace);
    var l := Recency(maxItemSize, fetch, trace);
    var a, b := Evict(small, l), Evict(large, l);
    assert l[..|a|] == a;
    if |b| < |a| {
      EvictLongest(large, l, |a|);
      assert false;
    }
    assert a == b[..|a|];
    if Has(a, key) {
      assert b[Find(a, key)].key == key;
    }
  }

  // A hit shows what the fetch would have shown.
  lemma HitIsTransparent(maxBytes: int, maxItemSize: int, fetch: string -> Option<Response>, trace: seq<string>,
                         key: string)
    ensures var c := Serve(maxBytes, maxItemSize, fetch, trace);
            Has(c, key) ==>
            var e := c[Find(c, key)];
            fetch(key) == Some(Response(e.status, e.headers, e.body))
  {
    CacheIsRecencyPrefix(maxBytes, maxItemSize, fetch, trace);
    RecencyEntries(maxItemSize, fetch, trace);
    var l := Recency(maxItemSize, fetch, trace);
    var c := Evict(maxBytes, l);
    if Has(c, key) {
      assert c[Find(c, key)] == l[Find(c, key)];
    }
  }
}
