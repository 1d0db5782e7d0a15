// The order of media sources in internal/aggregator/aggregator.go: codec priorities, the comparator,
// and sorting by it.
module MediaOrder {
  datatype MediaSource = MediaSource(
    id: string,
    bitrate: int,
    width: int,
    height: int,
    videoCodec: string,
    audioChannels: int,
    size: int,
    serverID: int,
    originalID: string)

  // ---------- codec priorities, as New builds them ----------

  // The last place of a codec decides.
  ghost predicate PriorityOf(lower: string -> string, codecs: seq<string>, i: nat, codec: string)
  {
    i < |codecs| && lower(codecs[i]) == codec && forall j | i < j < |codecs| :: lower(codecs[j]) != codec
  }

  method CodecPriority(lower: string -> string, codecs: seq<string>) returns (priority: map<string, int>)
    ensures forall i | 0 <= i < |codecs| :: lower(codecs[i]) in priority
    ensures forall c | c in priority :: exists i :: PriorityOf(lower, codecs, i, c) && priority[c] == |codecs| - i
  {
    priority := map[];
    for i := 0 to |codecs|
      invariant forall j | 0 <= j < i :: lower(codecs[j]) in priority
      invariant forall c | c in priority ::
          exists j :: PriorityOf(lower, codecs[..i], j, c) && priority[c] == |codecs| - j
    {
      var before, now := priority, codecs[..i + 1];
      priority := priority[lower(codecs[i]) := |codecs| - i];
      forall c | c in priority
        ensures exists j :: PriorityOf(lower, now, j, c) && priority[c] == |codecs| - j
      {
        if c == lower(codecs[i]) {
          assert PriorityOf(lower, now, i, c);
        } else {
          var j :| PriorityOf(lower, codecs[..i], j, c) && before[c] == |codecs| - j;
          assert PriorityOf(lower, now, j, c);
        }
      }
    }
    assert codecs[..|codecs|] == codecs;
  }

  function Priority(priority: map<string, int>, codec: string): int
  {
    if codec in priority then priority[codec] else 0
  }

  // With codecs that stay different in lower case, priorities fall strictly along the list, and every
  // listed codec comes before every other one.
  lemma PrioritiesFall(lower: string -> string, codecs: seq<string>, priority: map<string, int>)
    requires forall i | 0 <= i < |codecs| :: lower(codecs[i]) in priority
    requires forall c | c in priority :: exists i :: PriorityOf(lower, codecs, i, c) && priority[c] == |codecs| - i
    requires forall i, j | 0 <= i < j < |codecs| :: lower(codecs[i]) != lower(codecs[j])
    ensures forall i, j | 0 <= i < j < |codecs| ::
              Priority(priority, lower(codecs[i])) > Priority(priority, lower(codecs[j]))
    ensures forall i, c | 0 <= i < |codecs| && c !in priority ::
              Priority(priority, lower(codecs[i])) > Priority(priority, c)
  {
    forall i | 0 <= i < |codecs|
      ensures priority[lower(codecs[i])] == |codecs| - i
    {
      var k :| PriorityOf(lower, codecs, k, lower(codecs[i])) && priority[lower(codecs[i])] == |codecs| - k;
      assert k == i;
    }
  }

  // ---------- the comparator ----------

  predicate Less(priority: map<string, int>, left: MediaSource, right: MediaSource)
  {
    if left.bitrate != right.bitrate then left.bitrate > right.bitrate
    else if left.width * left.height != right.width * right.height then
      left.width * left.height > right.width * right.height
    else if Priority(priority, left.videoCodec) != Priority(priority, right.videoCodec) then
      Priority(priority, left.videoCodec) > Priority(priority, right.videoCodec)
    else if left.audioChannels != right.audioChannels then left.audioChannels > right.audioChannels
    else left.size > right.size
  }

  // Two sources the comparator does not tell apart.
  predicate Tied(priority: map<string, int>, a: MediaSource, b: MediaSource)
  {
    !Less(priority, a, b) && !Less(priority, b, a)
  }

  // The comparator is a strict weak order, over all sources and all priority tables.
  lemma StrictWeakOrder(priority: map<string, int>, a: MediaSource, b: MediaSource, c: MediaSource)
    ensures !Less(priority, a, a)
    ensures Less(priority, a, b) ==> !Less(priority, b, a)
    ensures Less(priority, a, b) && Less(priority, b, c) ==> Less(priority, a, c)
    ensures Tied(priority, a, b) && Tied(priority, b, c) ==> Tied(priority, a, c)
  {
    var ra, rb, rc := a.width * a.height, b.width * b.height, c.width * c.height;
    assert Tied(priority, a, b) ==> a.bitrate == b.bitrate && ra == rb;
  }

  // ---------- sorting ----------

  ghost predicate Sorted(priority: map<string, int>, sources: seq<MediaSource>)
  {
    forall i, j | 0 <= i < j < |sources| :: !Less(priority, sources[j], sources[i])
  }

  ghost predicate IsSorting(priority: map<string, int>, before: seq<MediaSource>, after: seq<MediaSource>)
  {
    multiset(after) == multiset(before) && Sorted(priority, after)
  }

  ghost predicate IsFirst(priority: map<string, int>, sources: seq<MediaSource>, i: nat)
  {
    i < |sources| && forall j | 0 <= j < |sources| :: !Less(priority, sources[j], sources[i])
  }

  lemma {:induction false} FirstExists(priority: map<string, int>, sources: seq<MediaSource>) returns (i: nat)
    requires sources != []
    ensures IsFirst(priority, sources, i)
  {
    i := 0;
    if |sources| > 1 {
      var rest := sources[..|sources| - 1];
      var k := FirstExists(priority, rest);
      var last := sources[|sources| - 1];
      i := if Less(priority, last, sources[k]) then |sources| - 1 else k;
      forall j | 0 <= j < |sources|
        ensures !Less(priority, sources[j], sources[i])
      {
        assert j < |rest| ==> sources[j] == rest[j] && !Less(priority, rest[j], rest[k]);
        StrictWeakOrder(priority, sources[j], last, sources[k]);
        StrictWeakOrder(priority, last, sources[k], sources[j]);
      }
    } else {
      StrictWeakOrder(priority, sources[0], sources[0], sources[0]);
    }
  }

  // sort.Slice is not stable: it may leave any arrangement in which no source comes after one it should
  // come before. Any source that may stand first is taken first.
  method SortMediaSources(priority: map<string, int>, sources: seq<MediaSource>) returns (sorted: seq<MediaSource>)
    ensures IsSorting(priority, sources, sorted)
  {
    sorted := [];
    var rest := sources;
    while rest != []
      invariant multiset(sorted) + multiset(rest) == multiset(sources)
      invariant Sorted(priority, sorted)
      invariant forall x, y | x in sorted && y in rest :: !Less(priority, y, x)
      decreases |rest|
    {
      ghost var k := FirstExists(priority, rest);
      var i :| 0 <= i < |rest| && forall j | 0 <= j < |rest| :: !Less(priority, rest[j], rest[i]);
      ghost var rest' := rest[..i] + rest[i + 1..];
      assert rest == rest[..i] + [rest[i]] + rest[i + 1..];
      assert forall x | x in rest' :: x in rest;
      sorted := sorted + [rest[i]];
      rest := rest[..i] + rest[i + 1..];
    }
  }
}
