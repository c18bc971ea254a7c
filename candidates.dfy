/**
  The candidate pool: flattening the per-playlist track lists into candidates, the optional
  first-occurrence de-duplication by URI, the 5 x maxTracks safety cap, the per-candidate
  feature vectors, the per-playlist buckets and the Fisher-Yates shuffle of each bucket.
*/
module Candidates {
  import opened Util
  import opened Features

  const UriPrefix: string := "spotify:track:"

  /** `trackKey(track)`: the track URI, or null when the track has no id. */
  function TrackKey(t: Track): (key: Option<string>)
    ensures key.None? <==> t.id == ""
    ensures key.Some? ==> key.value == UriPrefix + t.id && key.value != ""
  {
    if t.id != "" then Some(UriPrefix + t.id) else None
  }

  /** Two tracks get the same URI only when they have the same id. */
  lemma TrackKeyInjective(a: Track, b: Track)
    requires TrackKey(a) == TrackKey(b) && TrackKey(a).Some?
    ensures a.id == b.id
  {
    assert a.id == (UriPrefix + a.id)[|UriPrefix|..];
    assert b.id == (UriPrefix + b.id)[|UriPrefix|..];
  }

  /** `getArtistId(track)`: the first artist's id, or "" when there is none. */
  function ArtistId(t: Track): (r: string)
    ensures |t.artistIds| == 0 ==> r == ""
    ensures |t.artistIds| > 0 ==> r == t.artistIds[0]
  {
    if |t.artistIds| > 0 then t.artistIds[0] else ""
  }

  /** A flattened track before its features are known: its playlist, its URI and its artist. */
  datatype Entry = Entry(track: Track, plIndex: nat, uri: Option<string>, artistId: string)

  function MakeEntry(t: Track, i: nat): Entry
  {
    Entry(t, i, TrackKey(t), ArtistId(t))
  }

  /** The entries of playlist i, in the playlist's order. */
  function Tagged(tracks: seq<Track>, i: nat): seq<Entry>
  {
    seq(|tracks|, k requires 0 <= k < |tracks| => MakeEntry(tracks[k], i))
  }

  /** Every playlist's entries, playlist after playlist. */
  function Flattened(pp: seq<seq<Track>>): (es: seq<Entry>)
    ensures forall k :: 0 <= k < |es| ==> es[k].plIndex < |pp|
  {
    if pp == [] then [] else Flattened(pp[..|pp| - 1]) + Tagged(pp[|pp| - 1], |pp| - 1)
  }

  /** The flattening loop: one entry per fetched track, tagged with its playlist index. */
  method Flatten(pp: seq<seq<Track>>) returns (es: seq<Entry>)
    ensures es == Flattened(pp)
  {
    es := [];
    var i := 0;
    while i < |pp|
      invariant 0 <= i <= |pp|
      invariant es == Flattened(pp[..i])
    {
      var j := 0;
      while j < |pp[i]|
        invariant 0 <= j <= |pp[i]|
        invariant es == Flattened(pp[..i]) + Tagged(pp[i][..j], i)
      {
        TaggedSnoc(pp[i], j, i);
        es := es + [MakeEntry(pp[i][j], i)];
        j := j + 1;
      }
      FlattenedSnoc(pp, i);
      i := i + 1;
    }
    assert pp[..i] == pp;
  }

  lemma TaggedSnoc(tracks: seq<Track>, j: nat, i: nat)
    requires j < |tracks|
    ensures Tagged(tracks[..j + 1], i) == Tagged(tracks[..j], i) + [MakeEntry(tracks[j], i)]
  {
  }

  lemma FlattenedSnoc(pp: seq<seq<Track>>, i: nat)
    requires i < |pp|
    ensures Flattened(pp[..i + 1]) == Flattened(pp[..i]) + Tagged(pp[i][..|pp[i]|], i)
  {
    assert pp[..i + 1][..i] == pp[..i];
    assert pp[i][..|pp[i]|] == pp[i];
  }

  /** The URIs occurring in a list of entries (null included, as `None`). */
  function Uris(es: seq<Entry>): set<Option<string>>
  {
    set k | 0 <= k < |es| :: es[k].uri
  }

  lemma UrisSnoc(es: seq<Entry>)
    requires es != []
    ensures Uris(es) == Uris(es[..|es| - 1]) + {es[|es| - 1].uri}
  {
  }

  /** Entry i carries a URI that no earlier entry carries. */
  predicate IsFirstOccurrence(es: seq<Entry>, i: nat)
    requires i < |es|
  {
    es[i].uri.Some? && es[i].uri !in Uris(es[..i])
  }

  /** What the `removeDuplicates` filter keeps: the first occurrence of every non-null URI. */
  function FirstOccurrences(es: seq<Entry>): (r: seq<Entry>)
    ensures |r| <= |es|
    ensures forall k :: 0 <= k < |r| ==> r[k].uri.Some?
    ensures forall i, j :: 0 <= i < j < |r| ==> r[i].uri != r[j].uri
    ensures Uris(r) == Uris(es) - {None}
  {
    if es == [] then []
    else
      var n := |es| - 1;
      var prev := FirstOccurrences(es[..n]);
      UrisSnoc(es);
      if IsFirstOccurrence(es, n) then
        UrisSnoc(prev + [es[n]]);
        assert (prev + [es[n]])[..|prev|] == prev;
        assert forall i :: 0 <= i < |prev| ==> prev[i].uri in Uris(prev);
        prev + [es[n]]
      else
        prev
  }

  /** `r` is `s` with some elements left out, the rest in their original order. */
  predicate IsSubsequence<T(==)>(r: seq<T>, s: seq<T>)
    decreases |s|
  {
    if s == [] then r == []
    else
      (r != [] && r[|r| - 1] == s[|s| - 1] && IsSubsequence(r[..|r| - 1], s[..|s| - 1]))
      || IsSubsequence(r, s[..|s| - 1])
  }

  lemma {:induction false} DedupIsSubsequence(es: seq<Entry>)
    ensures IsSubsequence(FirstOccurrences(es), es)
  {
    if es != [] {
      var n := |es| - 1;
      var prev := FirstOccurrences(es[..n]);
      DedupIsSubsequence(es[..n]);
      if IsFirstOccurrence(es, n) {
        assert (prev + [es[n]])[..|prev|] == prev;
      }
    }
  }

  /** Every first occurrence survives the filter ... */
  lemma {:induction false} DedupKeepsFirst(es: seq<Entry>, i: nat)
    requires i < |es| && IsFirstOccurrence(es, i)
    ensures es[i] in FirstOccurrences(es)
  {
    var n := |es| - 1;
    if i < n {
      assert es[..n][..i] == es[..i];
      DedupKeepsFirst(es[..n], i);
    }
  }

  /** ... and nothing else does. */
  lemma {:induction false} DedupKeepsOnlyFirst(es: seq<Entry>, m: nat)
    requires m < |FirstOccurrences(es)|
    ensures exists i :: 0 <= i < |es| && IsFirstOccurrence(es, i) && es[i] == FirstOccurrences(es)[m]
  {
    var n := |es| - 1;
    var prev := FirstOccurrences(es[..n]);
    if m < |prev| {
      DedupKeepsOnlyFirst(es[..n], m);
      var i :| 0 <= i < n && IsFirstOccurrence(es[..n], i) && es[..n][i] == prev[m];
      assert es[..n][..i] == es[..i];
      assert IsFirstOccurrence(es, i);
    } else {
      assert IsFirstOccurrence(es, n);
    }
  }

  /** The filter with its `seen` set. */
  method Dedup(es: seq<Entry>) returns (r: seq<Entry>)
    ensures r == FirstOccurrences(es)
  {
    var seen: set<string> := {};
    r := [];
    var i := 0;
    while i < |es|
      invariant 0 <= i <= |es|
      invariant r == FirstOccurrences(es[..i])
      invariant forall u :: u in seen <==> Some(u) in Uris(es[..i])
    {
      var c := es[i];
      assert es[..i + 1][..i] == es[..i];
      UrisSnoc(es[..i + 1]);
      if c.uri.Some? && c.uri.value !in seen {
        seen := seen + {c.uri.value};
        r := r + [c];
      }
      i := i + 1;
    }
    assert es[..i] == es;
  }

  /** The safety cap: at most 5 x maxTracks candidates, the first ones, in order. */
  function Truncate<T>(s: seq<T>, maxTracks: nat): (r: seq<T>)
    ensures |r| == Min(|s|, 5 * maxTracks)
    ensures r == s[..|r|]
  {
    if |s| > maxTracks * 5 then s[..maxTracks * 5] else s
  }

  /** A candidate: its entry and its precomputed feature vector. */
  datatype Candidate = Candidate(entry: Entry, vec: FeatureVector)
  {
    function Uri(): Option<string> { entry.uri }
    function Source(): nat { entry.plIndex }
  }

  /** `afMap.get(c.track.id)` followed by `featureVector(af, c.track)`. */
  function WithVector(e: Entry, afMap: map<string, AudioFeatures>): Candidate
  {
    var af := if e.track.id in afMap then Some(afMap[e.track.id]) else None;
    Candidate(e, Vectorize(af, e.track))
  }

  function Vectorized(es: seq<Entry>, afMap: map<string, AudioFeatures>): (cs: seq<Candidate>)
    ensures |cs| == |es|
    ensures forall k :: 0 <= k < |cs| ==> cs[k].entry == es[k] && 0.0 <= cs[k].vec.duration <= 1.0
  {
    seq(|es|, k requires 0 <= k < |es| => WithVector(es[k], afMap))
  }

  /** The precompute loop: one vector per candidate, the candidates otherwise untouched. */
  method AttachVectors(es: seq<Entry>, afMap: map<string, AudioFeatures>) returns (cs: seq<Candidate>)
    ensures cs == Vectorized(es, afMap)
  {
    cs := [];
    var i := 0;
    while i < |es|
      invariant 0 <= i <= |es|
      invariant cs == Vectorized(es[..i], afMap)
    {
      cs := cs + [WithVector(es[i], afMap)];
      i := i + 1;
    }
    assert es[..i] == es;
  }

  /** The candidates of playlist b, in their order. */
  function OfSource(cs: seq<Candidate>, b: nat): (r: seq<Candidate>)
    ensures |r| <= |cs|
    ensures forall k :: 0 <= k < |r| ==> r[k].Source() == b
  {
    if cs == [] then []
    else
      var n := |cs| - 1;
      OfSource(cs[..n], b) + (if cs[n].Source() == b then [cs[n]] else [])
  }

  /** All candidates held by a list of buckets. */
  function PoolOf(bs: seq<seq<Candidate>>): multiset<Candidate>
  {
    if bs == [] then multiset{} else PoolOf(bs[..|bs| - 1]) + multiset(bs[|bs| - 1])
  }

  /** Replacing one bucket by one holding d more candidates adds exactly d to the pool. */
  lemma {:induction false} PoolGrow(bs: seq<seq<Candidate>>, b: nat, x: seq<Candidate>, d: multiset<Candidate>)
    requires b < |bs| && multiset(x) == multiset(bs[b]) + d
    ensures PoolOf(bs[b := x]) == PoolOf(bs) + d
  {
    var n := |bs| - 1;
    assert bs[b := x][n] == if b == n then x else bs[n];
    if b < n {
      PoolGrow(bs[..n], b, x, d);
      assert bs[b := x][..n] == bs[..n][b := x];
    } else {
      assert bs[b := x][..n] == bs[..n];
    }
  }

  /** Bucketing: `buckets[c.plIndex].push(c)` for every candidate, in order. */
  method Bucketize(cs: seq<Candidate>, n: nat) returns (buckets: seq<seq<Candidate>>)
    requires forall k :: 0 <= k < |cs| ==> cs[k].Source() < n
    ensures |buckets| == n
    ensures forall b :: 0 <= b < n ==> buckets[b] == OfSource(cs, b)
    ensures PoolOf(buckets) == multiset(cs)
  {
    buckets := seq(n, _ => []);
    EmptyPool(buckets);
    assert cs[..0] == [];
    var i := 0;
    while i < |cs|
      invariant 0 <= i <= |cs| && |buckets| == n
      invariant forall b :: 0 <= b < n ==> buckets[b] == OfSource(cs[..i], b)
      invariant PoolOf(buckets) == multiset(cs[..i])
    {
      var c := cs[i];
      var p := c.Source();
      var next := buckets[p := buckets[p] + [c]];
      BucketStep(cs, i, buckets, n);
      buckets := next;
      i := i + 1;
    }
    assert cs[..i] == cs;
  }

  /** One step of bucketing keeps both loop facts. */
  lemma BucketStep(cs: seq<Candidate>, i: nat, buckets: seq<seq<Candidate>>, n: nat)
    requires i < |cs| && |buckets| == n && cs[i].Source() < n
    requires forall b :: 0 <= b < n ==> buckets[b] == OfSource(cs[..i], b)
    requires PoolOf(buckets) == multiset(cs[..i])
    ensures var p := cs[i].Source();
      var next := buckets[p := buckets[p] + [cs[i]]];
      (forall b :: 0 <= b < n ==> next[b] == OfSource(cs[..i + 1], b)) &&
      PoolOf(next) == multiset(cs[..i + 1])
  {
    var c := cs[i];
    var p := c.Source();
    var next := buckets[p := buckets[p] + [c]];
    assert cs[..i + 1] == cs[..i] + [c];
    PoolGrow(buckets, p, buckets[p] + [c], multiset{c});
    forall b | 0 <= b < n
      ensures next[b] == OfSource(cs[..i + 1], b)
    {
      OfSourceSnoc(cs[..i], c, b);
    }
  }

  lemma OfSourceSnoc(cs: seq<Candidate>, c: Candidate, b: nat)
    ensures OfSource(cs + [c], b) == OfSource(cs, b) + (if c.Source() == b then [c] else [])
  {
  }

  lemma {:induction false} EmptyPool(bs: seq<seq<Candidate>>)
    requires forall b :: 0 <= b < |bs| ==> bs[b] == []
    ensures PoolOf(bs) == multiset{}
  {
    if bs != [] {
      EmptyPool(bs[..|bs| - 1]);
    }
  }

  /** `[b[i], b[j]] = [b[j], b[i]]`. */
  function Swap<T>(s: seq<T>, i: nat, j: nat): seq<T>
    requires i < |s| && j < |s|
  {
    s[i := s[j]][j := s[i]]
  }

  /** The injected random source: for every i >= 1 of the bucket, an index j with j <= i. */
  predicate ValidDraws(rand: seq<nat>, len: nat)
  {
    |rand| >= len && forall k :: 0 < k < len ==> rand[k] <= k
  }

  /** Fisher-Yates over the first n positions: position n - 1 down to position 1. */
  function ShuffleDown<T>(s: seq<T>, rand: seq<nat>, n: nat): (r: seq<T>)
    requires n <= |s| && ValidDraws(rand, |s|)
    ensures |r| == |s|
    decreases n
  {
    if n <= 1 then s else ShuffleDown(Swap(s, n - 1, rand[n - 1]), rand, n - 1)
  }

  /** The shuffle only reorders. */
  lemma {:induction false} ShuffleDownPermutes<T>(s: seq<T>, rand: seq<nat>, n: nat)
    requires n <= |s| && ValidDraws(rand, |s|)
    ensures multiset(ShuffleDown(s, rand, n)) == multiset(s)
    decreases n
  {
    if n > 1 {
      SwapPermutes(s, n - 1, rand[n - 1]);
      ShuffleDownPermutes(Swap(s, n - 1, rand[n - 1]), rand, n - 1);
    }
  }

  lemma SwapPermutes<T>(s: seq<T>, i: nat, j: nat)
    requires i < |s| && j < |s|
    ensures multiset(Swap(s, i, j)) == multiset(s)
  {
  }

  /** The in-place shuffle of one bucket. */
  method Shuffle<T>(a: array<T>, rand: seq<nat>)
    requires ValidDraws(rand, a.Length)
    modifies a
    ensures a[..] == ShuffleDown(old(a[..]), rand, a.Length)
    ensures multiset(a[..]) == multiset(old(a[..]))
  {
    var i := a.Length - 1;
    while i > 0
      invariant -1 <= i < a.Length
      invariant ShuffleDown(a[..], rand, i + 1) == ShuffleDown(old(a[..]), rand, a.Length)
    {
      var j := rand[i];
      ghost var before := a[..];
      var t := a[i];
      a[i] := a[j];
      assert a[..] == before[i := before[j]];
      a[j] := t;
      assert a[..] == Swap(before, i, j);
      i := i - 1;
    }
    ShuffleDownPermutes(old(a[..]), rand, a.Length);
  }
}
