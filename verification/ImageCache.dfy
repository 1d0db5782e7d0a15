// The image cache of internal/proxy/image_cache.go: a recency list and an index over it, bounded in
// bytes, and the way handleImage uses it.
module ImageCache {
  import opened Wrappers
  import Hex

  type Body = seq<Hex.byte>

  type Headers = map<string, seq<string>>

  datatype Entry = Entry(key: string, status: int, headers: Headers, body: Body)

  // ---------- contents as a list, most recent first ----------

  function Total(c: seq<Entry>): nat
  {
    if c == [] then 0 else |c[0].body| + Total(c[1..])
  }

  lemma {:induction false} TotalAppend(a: seq<Entry>, b: seq<Entry>)
    ensures Total(a + b) == Total(a) + Total(b)
  {
    if a == [] {
      assert a + b == b;
    } else {
      assert (a + b)[1..] == a[1..] + b;
      TotalAppend(a[1..], b);
    }
  }

  lemma TotalPrefix(c: seq<Entry>, m: nat, n: nat)
    requires m <= n <= |c|
    ensures Total(c[..m]) <= Total(c[..n])
  {
    assert c[..n] == c[..m] + c[m..n];
    TotalAppend(c[..m], c[m..n]);
  }

  // Entries are dropped from the old end until the rest fits.
  function Evict(maxBytes: int, c: seq<Entry>): (kept: seq<Entry>)
    ensures kept <= c
    ensures Total(kept) <= maxBytes || kept == []
    decreases |c|
  {
    if Total(c) > maxBytes && |c| > 0 then Evict(maxBytes, c[..|c| - 1]) else c
  }

  // What is kept is the longest prefix that fits: one entry more would not.
  lemma {:induction false} EvictLongest(maxBytes: int, c: seq<Entry>, n: nat)
    requires |Evict(maxBytes, c)| < n <= |c|
    ensures Total(c[..n]) > maxBytes
    decreases |c|
  {
    if n == |c| {
      assert c[..n] == c;
    } else {
      assert c[..|c| - 1][..n] == c[..n];
      EvictLongest(maxBytes, c[..|c| - 1], n);
    }
  }

  function Remove<T>(s: seq<T>, i: nat): (r: seq<T>)
    requires i < |s|
    ensures |r| == |s| - 1
  {
    s[..i] + s[i + 1..]
  }

  lemma RemoveMembers<T>(s: seq<T>, i: nat)
    requires i < |s|
    ensures forall x | x in s :: x == s[i] || x in Remove(s, i)
    ensures forall x | x in Remove(s, i) :: x in s
  {
    forall x | x in s && x != s[i]
      ensures x in Remove(s, i)
    {
      var j :| 0 <= j < |s| && s[j] == x;
      assert Remove(s, i)[if j < i then j else j - 1] == x;
    }
  }

  lemma RemoveTotal(c: seq<Entry>, i: nat)
    requires i < |c|
    ensures Total(Remove(c, i)) == Total(c) - |c[i].body|
  {
    assert c == c[..i] + ([c[i]] + c[i + 1..]);
    TotalAppend(c[..i], [c[i]] + c[i + 1..]);
    TotalAppend(c[..i], c[i + 1..]);
  }

  // Position of a key in the list, |c| if it is not there.
  function Find(c: seq<Entry>, key: string): (i: nat)
    ensures i <= |c|
    ensures i < |c| ==> c[i].key == key
    ensures forall j | 0 <= j < i :: c[j].key != key
  {
    if c == [] || c[0].key == key then 0 else 1 + Find(c[1..], key)
  }

  predicate Has(c: seq<Entry>, key: string)
  {
    Find(c, key) < |c|
  }

  function Without(c: seq<Entry>, key: string): seq<Entry>
  {
    var i := Find(c, key);
    if i < |c| then Remove(c, i) else c
  }

  // Get: the hit moves to the front.
  function Touch(c: seq<Entry>, key: string): seq<Entry>
  {
    var i := Find(c, key);
    if i < |c| then [c[i]] + Remove(c, i) else c
  }

  // Put: too large a body is refused and leaves an older entry for the key where it is.
  function Store(maxBytes: int, maxItemSize: int, c: seq<Entry>, e: Entry): seq<Entry>
  {
    if |e.body| > maxItemSize then c else Evict(maxBytes, [e] + Without(c, e.key))
  }

  ghost predicate DistinctKeys(c: seq<Entry>)
  {
    forall i, j | 0 <= i < j < |c| :: c[i].key != c[j].key
  }

  lemma FindUnique(c: seq<Entry>, i: nat)
    requires DistinctKeys(c) && i < |c|
    ensures Find(c, c[i].key) == i
  {}

  lemma WithoutDistinct(c: seq<Entry>, key: string)
    requires DistinctKeys(c)
    ensures DistinctKeys(Without(c, key)) && !Has(Without(c, key), key)
    ensures forall e :: e in Without(c, key) <==> e in c && e.key != key
  {
    var i, w := Find(c, key), Without(c, key);
    if i < |c| {
      assert forall j | 0 <= j < |w| :: w[j] == c[if j < i then j else j + 1];
      forall e | e in c && e.key != key
        ensures e in w
      {
        var j :| 0 <= j < |c| && c[j] == e;
        assert w[if j < i then j else j - 1] == e;
      }
    }
  }

  // ---------- the cache object ----------

  class Element {
    const key: string
    var status: int
    var headers: Headers
    var body: Body
    var size: int

    constructor (key: string, status: int, headers: Headers, body: Body)
      ensures this.key == key && this.status == status && this.headers == headers && this.body == body && size == |body|
    {
      this.key, this.status, this.headers, this.body, this.size := key, status, headers, body, |body|;
    }

    function Value(): Entry
      reads this
    {
      Entry(key, status, headers, body)
    }
  }

  // Each list element carries the entry at its place.
  ghost predicate Linked(ll: seq<Element>, contents: seq<Entry>)
    reads ll
  {
    |contents| == |ll| && forall i | 0 <= i < |ll| :: Carries(ll[i], contents[i])
  }

  ghost predicate Carries(element: Element, e: Entry)
    reads element
  {
    element.Value() == e && element.size == |e.body|
  }

  // The index leads from each key to the list element of that key.
  ghost predicate Indexed(ll: seq<Element>, items: map<string, Element>)
  {
    && (forall x | x in ll :: x.key in items && items[x.key] == x)
    && (forall k | k in items :: items[k] in ll && items[k].key == k)
  }

  lemma LinkedFront(ll: seq<Element>, contents: seq<Entry>, i: nat)
    requires Linked(ll, contents) && DistinctKeys(contents) && i < |ll|
    ensures Linked([ll[i]] + Remove(ll, i), [contents[i]] + Remove(contents, i))
    ensures DistinctKeys([contents[i]] + Remove(contents, i))
    ensures Total([contents[i]] + Remove(contents, i)) == Total(contents)
    ensures [contents[i]] + Remove(contents, i) == Touch(contents, ll[i].key)
  {
    assert Carries(ll[i], contents[i]);
    FindUnique(contents, i);
    RemoveTotal(contents, i);
    WithoutDistinct(contents, contents[i].key);
    var ll', contents' := [ll[i]] + Remove(ll, i), [contents[i]] + Remove(contents, i);
    forall j | 0 <= j < |ll'|
      ensures Carries(ll'[j], contents'[j])
    {
      var k := if j == 0 then i else if j <= i then j - 1 else j;
      assert ll'[j] == ll[k] && contents'[j] == contents[k];
    }
  }

  lemma IndexedFront(ll: seq<Element>, items: map<string, Element>, i: nat)
    requires Indexed(ll, items) && i < |ll|
    ensures Indexed([ll[i]] + Remove(ll, i), items)
  {
    RemoveMembers(ll, i);
  }

  class Cache {
    var ll: seq<Element>
    var items: map<string, Element>
    var sizeBytes: int
    const maxBytes: int
    const maxItemSize: int
    ghost var contents: seq<Entry>

    // List and index are in bijection and sizeBytes is the sum of the sizes.
    ghost predicate Valid()
      reads this, ll
    {
      Linked(ll, contents) && Indexed(ll, items) && DistinctKeys(contents) && sizeBytes == Total(contents)
    }

    ghost predicate Fits()
      reads this
    {
      sizeBytes <= maxBytes || contents == []
    }

    constructor (maxBytes: int, maxItemSize: int)
      ensures Valid() && Fits() && contents == []
      ensures this.maxBytes == maxBytes && this.maxItemSize == maxItemSize
    {
      ll, items, sizeBytes, contents := [], map[], 0, [];
      this.maxBytes, this.maxItemSize := maxBytes, maxItemSize;
    }

    // list.MoveToFront
    method MoveToFront(element: Element)
      requires Valid() && element in ll
      modifies this
      ensures Valid() && contents == Touch(old(contents), element.key)
      ensures items == old(items) && sizeBytes == old(sizeBytes)
      ensures ll != [] && ll[0] == element
    {
      var i :| 0 <= i < |ll| && ll[i] == element;
      LinkedFront(ll, contents, i);
      IndexedFront(ll, items, i);
      ll, contents := [element] + Remove(ll, i), [contents[i]] + Remove(contents, i);
    }

    method Get(key: string) returns (found: Option<Entry>)
      requires Valid()
      modifies this
      ensures Valid() && contents == Touch(old(contents), key)
      ensures found == if Has(old(contents), key) then Some(old(contents)[Find(old(contents), key)]) else None
      ensures sizeBytes == old(sizeBytes) && (old(Fits()) ==> Fits())
      ensures found.None? ==> ll == old(ll)
    {
      if key !in items {
        return None;
      }
      var element := items[key];
      MoveToFront(element);
      return Some(element.Value());
    }

    // An accepted body goes to the front, in a new element or in the key's own, and the old end makes room.
    method Put(key: string, status: int, headers: Headers, body: Body)
      requires Valid() && Fits()
      modifies this, ll
      ensures Valid() && Fits()
      ensures contents == Store(maxBytes, maxItemSize, old(contents), Entry(key, status, headers, body))
    {
      if |body| > maxItemSize {
        return;
      }
      if key in items {
        Refresh(key, status, headers, body);
      } else {
        PushFront(key, status, headers, body);
      }
      EvictIfNeeded();
    }

    // The key is there: its element is overwritten in place and moved.
    method Refresh(key: string, status: int, headers: Headers, body: Body)
      requires Valid() && key in items
      modifies this, ll
      ensures Valid() && contents == [Entry(key, status, headers, body)] + Without(old(contents), key)
    {
      var existing := items[key];
      ghost var i :| 0 <= i < |ll| && ll[i] == existing;
      assert Carries(ll[i], contents[i]);
      Overwrite(existing, i, status, headers, body);
      TouchOverwritten(old(contents), i, Entry(key, status, headers, body));
      MoveToFront(existing);
    }

    method Overwrite(element: Element, ghost i: nat, status: int, headers: Headers, body: Body)
      requires Valid() && i < |ll| && ll[i] == element
      modifies this`sizeBytes, this`contents, element
      ensures Valid() && contents == old(contents)[i := Entry(element.key, status, headers, body)]
    {
      ghost var e, before := Entry(element.key, status, headers, body), contents;
      assert Carries(ll[i], before[i]);
      OverwrittenDistinct(ll, before, i, e);
      sizeBytes := sizeBytes - element.size + |body|;
      contents := contents[i := e];
      element.status, element.headers, element.body, element.size := status, headers, body, |body|;
      forall j | 0 <= j < |ll|
        ensures Carries(ll[j], contents[j])
      {
        if j != i {
          assert ll[j] != element;
        }
      }
    }

    method PushFront(key: string, status: int, headers: Headers, body: Body)
      requires Valid() && key !in items
      modifies this
      ensures Valid() && contents == [Entry(key, status, headers, body)] + Without(old(contents), key)
    {
      NotIndexed(ll, contents, items, key);
      var element := new Element(key, status, headers, body);
      Insert(element, Entry(key, status, headers, body));
    }

    method Insert(element: Element, ghost e: Entry)
      requires Valid() && Carries(element, e) && element.key !in items
      requires forall j | 0 <= j < |contents| :: contents[j].key != e.key
      modifies this
      ensures Valid() && contents == [e] + old(contents)
    {
      IndexedPush(ll, items, element);
      LinkedPush(ll, contents, element, e);
      ll, contents, items, sizeBytes :=
        [element] + ll, [e] + contents, items[element.key := element], sizeBytes + element.size;
    }

    method EvictIfNeeded()
      requires Valid()
      modifies this
      ensures Valid() && Fits() && contents == Evict(maxBytes, old(contents))
    {
      while sizeBytes > maxBytes && |ll| > 0
        invariant Valid() && Evict(maxBytes, contents) == Evict(maxBytes, old(contents))
        decreases |ll|
      {
        DropLast();
      }
    }

    method DropLast()
      requires Valid() && |ll| > 0
      modifies this
      ensures Valid() && |ll| == |old(ll)| - 1 && contents == old(contents)[..|old(contents)| - 1]
    {
      var element := ll[|ll| - 1];
      LinkedLast(ll, contents);
      IndexedLast(ll, items);
      items := items - {element.key};
      sizeBytes := sizeBytes - element.size;
      ll, contents := ll[..|ll| - 1], contents[..|ll| - 1];
    }
  }

  lemma LinkedLast(ll: seq<Element>, contents: seq<Entry>)
    requires Linked(ll, contents) && DistinctKeys(contents) && |ll| > 0
    ensures var n := |ll| - 1;
            && Linked(ll[..n], contents[..n]) && DistinctKeys(contents[..n])
            && Total(contents[..n]) == Total(contents) - ll[n].size
            && forall x | x in ll[..n] :: x.key != ll[n].key
  {
    var n := |ll| - 1;
    assert Carries(ll[n], contents[n]);
    assert contents == contents[..n] + [contents[n]];
    TotalAppend(contents[..n], [contents[n]]);
    forall x | x in ll[..n]
      ensures x.key != ll[n].key
    {
      var j :| 0 <= j < n && ll[j] == x;
      assert Carries(ll[j], contents[j]);
    }
  }

  lemma IndexedLast(ll: seq<Element>, items: map<string, Element>)
    requires Indexed(ll, items) && |ll| > 0
    requires forall x | x in ll[..|ll| - 1] :: x.key != ll[|ll| - 1].key
    ensures Indexed(ll[..|ll| - 1], items - {ll[|ll| - 1].key})
  {
    var before, last := ll[..|ll| - 1], ll[|ll| - 1];
    assert ll == before + [last];
    assert last in ll;
  }

  lemma TotalPush(contents: seq<Entry>, e: Entry)
    ensures Total([e] + contents) == Total(contents) + |e.body|
  {
    assert ([e] + contents)[1..] == contents;
  }

  lemma LinkedPush(ll: seq<Element>, contents: seq<Entry>, element: Element, e: Entry)
    requires Linked(ll, contents) && DistinctKeys(contents)
    requires Carries(element, e) && forall j | 0 <= j < |contents| :: contents[j].key != e.key
    ensures Linked([element] + ll, [e] + contents) && DistinctKeys([e] + contents)
    ensures Total([e] + contents) == Total(contents) + |e.body|
  {
    TotalPush(contents, e);
    var ll', contents' := [element] + ll, [e] + contents;
    forall j | 0 <= j < |ll'|
      ensures Carries(ll'[j], contents'[j])
    {
      if j > 0 {
        assert Carries(ll[j - 1], contents[j - 1]);
      }
    }
  }

  lemma IndexedPush(ll: seq<Element>, items: map<string, Element>, element: Element)
    requires Indexed(ll, items) && element.key !in items
    ensures Indexed([element] + ll, items[element.key := element])
  {
    var ll' := [element] + ll;
    assert forall x | x in ll' :: x == element || x in ll;
    assert ll'[0] == element;
    assert forall x | x in ll :: x in ll';
  }

  lemma OverwrittenDistinct(ll: seq<Element>, contents: seq<Entry>, i: nat, e: Entry)
    requires Linked(ll, contents) && DistinctKeys(contents) && i < |contents| && contents[i].key == e.key
    ensures forall j | 0 <= j < |ll| && j != i :: ll[j] != ll[i] && Carries(ll[j], contents[i := e][j])
    ensures DistinctKeys(contents[i := e])
    ensures Total(contents[i := e]) == Total(contents) - |contents[i].body| + |e.body|
  {
    assert Carries(ll[i], contents[i]);
    forall j | 0 <= j < |ll| && j != i
      ensures ll[j] != ll[i] && Carries(ll[j], contents[i := e][j])
    {
      assert Carries(ll[j], contents[j]);
    }
    assert Remove(contents[i := e], i) == Remove(contents, i);
    RemoveTotal(contents[i := e], i);
    RemoveTotal(contents, i);
  }

  lemma TouchOverwritten(contents: seq<Entry>, i: nat, e: Entry)
    requires DistinctKeys(contents) && i < |contents| && contents[i].key == e.key
    ensures Touch(contents[i := e], e.key) == [e] + Without(contents, e.key)
  {
    FindUnique(contents, i);
    FindUnique(contents[i := e], i);
    assert Remove(contents[i := e], i) == Remove(contents, i);
  }

  lemma NotIndexed(ll: seq<Element>, contents: seq<Entry>, items: map<string, Element>, key: string)
    requires Linked(ll, contents) && Indexed(ll, items) && key !in items
    ensures !Has(contents, key) && forall j | 0 <= j < |contents| :: contents[j].key != key
  {
    forall j | 0 <= j < |contents|
      ensures contents[j].key != key
    {
      assert Carries(ll[j], contents[j]) && ll[j].key in items;
    }
  }
}
