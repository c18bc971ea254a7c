/**
  The whole sequencing run of one mix request, from the fetched per-playlist track lists and
  audio-feature map to the ordered list of track URIs handed to the publisher.
*/
module Pipeline {
  import opened Util
  import opened Features
  import opened Candidates
  import opened Scoring
  import opened Sequencing

  /** The candidates that reach the buckets: flattened, optionally de-duplicated, capped, vectorised. */
  function Prepared(cfg: Config, pp: seq<seq<Track>>, afMap: map<string, AudioFeatures>): (cs: seq<Candidate>)
    ensures |cs| <= 5 * cfg.maxTracks
  {
    var flat := Flattened(pp);
    var kept := if cfg.removeDuplicates then FirstOccurrences(flat) else flat;
    Vectorized(Truncate(kept, cfg.maxTracks), afMap)
  }

  /** The prepared candidates are at most 5 x maxTracks, each tagged with an existing playlist. */
  lemma PreparedShape(cfg: Config, pp: seq<seq<Track>>, afMap: map<string, AudioFeatures>)
    ensures |Prepared(cfg, pp, afMap)| <= 5 * cfg.maxTracks
    ensures forall k :: 0 <= k < |Prepared(cfg, pp, afMap)| ==> Prepared(cfg, pp, afMap)[k].Source() < |pp|
  {
    var flat := Flattened(pp);
    var kept := if cfg.removeDuplicates then FirstOccurrences(flat) else flat;
    var cs := Prepared(cfg, pp, afMap);
    forall k | 0 <= k < |cs| ensures cs[k].Source() < |pp| {
      assert cs[k].entry == kept[k];
      if cfg.removeDuplicates {
        DedupKeepsOnlyFirst(flat, k);
      }
    }
  }

  /** `selected.map(c => c.uri).filter(Boolean)`. */
  function OrderedUris(sel: seq<Candidate>): (uris: seq<string>)
    ensures |uris| <= |sel|
    ensures forall u :: u in uris <==> Some(u) in Keys(sel)
  {
    if sel == [] then []
    else
      var n := |sel| - 1;
      var c := sel[n];
      assert sel == sel[..n] + [c];
      KeysSnoc(sel[..n], c);
      OrderedUris(sel[..n]) + (if c.Uri().Some? then [c.Uri().value] else [])
  }

  /** One candidate publishes its URI, or nothing when it has none. */
  lemma OrderedUrisSingle(c: Candidate)
    ensures OrderedUris([c]) == if c.Uri().Some? then [c.Uri().value] else []
  {
    assert [c][..0] == [];
  }

  /** The URIs come out in selection order: the list of a concatenation is the concatenation of the lists. */
  lemma {:induction false} OrderedUrisConcat(a: seq<Candidate>, b: seq<Candidate>)
    ensures OrderedUris(a + b) == OrderedUris(a) + OrderedUris(b)
  {
    if b == [] {
      assert a + b == a;
    } else {
      var n := |b| - 1;
      var ab := a + b;
      var last := if b[n].Uri().Some? then [b[n].Uri().value] else [];
      assert ab[..|ab| - 1] == a + b[..n] && ab[|ab| - 1] == b[n];
      assert OrderedUris(ab) == OrderedUris(a + b[..n]) + last;
      assert OrderedUris(b) == OrderedUris(b[..n]) + last;
      OrderedUrisConcat(a, b[..n]);
    }
  }

  /** A selection without repeated URIs publishes no URI twice. */
  lemma {:induction false} OrderedUrisDistinct(sel: seq<Candidate>)
    requires DistinctUris(sel)
    ensures forall i, j :: 0 <= i < j < |OrderedUris(sel)| ==> OrderedUris(sel)[i] != OrderedUris(sel)[j]
  {
    if sel != [] {
      var n := |sel| - 1;
      var c := sel[n];
      var prev := OrderedUris(sel[..n]);
      OrderedUrisDistinct(sel[..n]);
      if c.Uri().Some? {
        forall i | 0 <= i < |prev| ensures prev[i] != c.Uri().value {
          assert prev[i] in prev;
          var k :| 0 <= k < n && sel[..n][k].Uri() == Some(prev[i]);
          assert sel[k].Uri() != sel[n].Uri();
        }
      }
    }
  }

  /** The injected random source: one valid draw per position of a bucket, for every bucket. */
  predicate ValidRandomSource(rands: seq<seq<nat>>, n: nat, maxTracks: nat)
  {
    |rands| == n && forall b :: 0 <= b < n ==> ValidDraws(rands[b], 5 * maxTracks)
  }

  /** Bucket b of step 3: playlist b's prepared candidates, in pool order, shuffled with its draws. */
  function ShuffledBucket(cs: seq<Candidate>, rand: seq<nat>, b: nat): (r: seq<Candidate>)
    requires ValidDraws(rand, |cs|)
    ensures multiset(r) == multiset(OfSource(cs, b))
  {
    var g := OfSource(cs, b);
    ShuffleDownPermutes(g, rand, |g|);
    ShuffleDown(g, rand, |g|)
  }

  /** The buckets after step 3, one `ShuffledBucket` per playlist. */
  function ShuffledBuckets(cs: seq<Candidate>, rands: seq<seq<nat>>, maxTracks: nat): (bs: seq<seq<Candidate>>)
    requires |cs| <= 5 * maxTracks && ValidRandomSource(rands, |rands|, maxTracks)
    ensures |bs| == |rands|
    ensures forall b :: 0 <= b < |bs| ==> bs[b] == ShuffledBucket(cs, rands[b], b)
    ensures forall b :: 0 <= b < |bs| ==> multiset(bs[b]) == multiset(OfSource(cs, b))
  {
    seq(|rands|, b requires 0 <= b < |rands| => ShuffledBucket(cs, rands[b], b))
  }

  /** Steps 1 and 3 of the request: candidates, buckets, and one shuffle per bucket. */
  method Prepare(cfg: Config, pp: seq<seq<Track>>, afMap: map<string, AudioFeatures>, rands: seq<seq<nat>>)
    returns (buckets: seq<seq<Candidate>>)
    requires |pp| >= 1 && ValidRandomSource(rands, |pp|, cfg.maxTracks)
    ensures |buckets| == |pp|
    ensures buckets == ShuffledBuckets(Prepared(cfg, pp, afMap), rands, cfg.maxTracks)
    ensures forall b :: 0 <= b < |pp| ==> multiset(buckets[b]) == multiset(OfSource(Prepared(cfg, pp, afMap), b))
    ensures forall b, j :: 0 <= b < |buckets| && 0 <= j < |buckets[b]| ==> buckets[b][j].Source() == b
    ensures PoolOf(buckets) == multiset(Prepared(cfg, pp, afMap))
  {
    var es := Flatten(pp);
    if cfg.removeDuplicates {
      es := Dedup(es);
    }
    es := Truncate(es, cfg.maxTracks);
    var cs := AttachVectors(es, afMap);
    assert cs == Prepared(cfg, pp, afMap);
    PreparedShape(cfg, pp, afMap);
    var grouped := Bucketize(cs, |pp|);
    buckets := ShuffleAll(grouped, rands, cfg.maxTracks);
    PoolOfPermuted(buckets, grouped);
    ShuffledAsSpecified(buckets, grouped, cs, rands, cfg.maxTracks);
  }

  /** Bucketing followed by the per-bucket shuffles gives `ShuffledBuckets`. */
  lemma ShuffledAsSpecified(buckets: seq<seq<Candidate>>, grouped: seq<seq<Candidate>>, cs: seq<Candidate>,
                            rands: seq<seq<nat>>, maxTracks: nat)
    requires |cs| <= 5 * maxTracks && ValidRandomSource(rands, |rands|, maxTracks)
    requires |grouped| == |rands| && |buckets| == |grouped|
    requires forall b :: 0 <= b < |grouped| ==> grouped[b] == OfSource(cs, b)
    requires forall b :: 0 <= b < |grouped| ==> |grouped[b]| <= 5 * maxTracks
    requires forall b :: 0 <= b < |grouped| ==> buckets[b] == ShuffleDown(grouped[b], rands[b], |grouped[b]|)
    ensures buckets == ShuffledBuckets(cs, rands, maxTracks)
  {
    var bs := ShuffledBuckets(cs, rands, maxTracks);
    forall b | 0 <= b < |buckets| ensures buckets[b] == bs[b] {
      ShuffledBucketOf(buckets[b], grouped[b], cs, rands[b], b);
    }
    SameElements(buckets, bs);
  }

  /** One bucket of step 3 is `ShuffledBucket`. */
  lemma ShuffledBucketOf(x: seq<Candidate>, g: seq<Candidate>, cs: seq<Candidate>, rand: seq<nat>, b: nat)
    requires ValidDraws(rand, |cs|) && g == OfSource(cs, b)
    requires x == ShuffleDown(g, rand, |g|)
    ensures x == ShuffledBucket(cs, rand, b)
  {
    ShuffleDownCongruent(g, OfSource(cs, b), rand, |g|);
  }

  /** Equal buckets shuffle alike. */
  lemma ShuffleDownCongruent(g: seq<Candidate>, h: seq<Candidate>, rand: seq<nat>, n: nat)
    requires n <= |g| && ValidDraws(rand, |g|) && g == h
    ensures ShuffleDown(g, rand, n) == ShuffleDown(h, rand, n)
  {
  }

  /** Reordering inside buckets does not change the pool. */
  lemma {:induction false} PoolOfPermuted(bs1: seq<seq<Candidate>>, bs2: seq<seq<Candidate>>)
    requires |bs1| == |bs2|
    requires forall b :: 0 <= b < |bs1| ==> multiset(bs1[b]) == multiset(bs2[b])
    ensures PoolOf(bs1) == PoolOf(bs2)
  {
    if bs1 != [] {
      PoolOfPermuted(bs1[..|bs1| - 1], bs2[..|bs2| - 1]);
    }
  }

  /** One bucket, as an array, shuffled in place. */
  method ShuffledCopy(bucket: seq<Candidate>, rand: seq<nat>) returns (r: seq<Candidate>)
    requires ValidDraws(rand, |bucket|)
    ensures r == ShuffleDown(bucket, rand, |bucket|)
    ensures multiset(r) == multiset(bucket)
  {
    var a := new Candidate[|bucket|](k requires 0 <= k < |bucket| => bucket[k]);
    assert a[..] == bucket;
    Shuffle(a, rand);
    r := a[..];
  }

  /** `for (const b of buckets)`: the Fisher-Yates shuffle of every bucket, each with its own draws. */
  method ShuffleAll(grouped: seq<seq<Candidate>>, rands: seq<seq<nat>>, maxTracks: nat)
    returns (buckets: seq<seq<Candidate>>)
    requires ValidRandomSource(rands, |grouped|, maxTracks)
    requires forall b :: 0 <= b < |grouped| ==> |grouped[b]| <= 5 * maxTracks
    requires forall b, j :: 0 <= b < |grouped| && 0 <= j < |grouped[b]| ==> grouped[b][j].Source() == b
    ensures |buckets| == |grouped|
    ensures forall b :: 0 <= b < |grouped| ==> buckets[b] == ShuffleDown(grouped[b], rands[b], |grouped[b]|)
    ensures forall b :: 0 <= b < |grouped| ==> multiset(buckets[b]) == multiset(grouped[b])
    ensures forall b, j :: 0 <= b < |buckets| && 0 <= j < |buckets[b]| ==> buckets[b][j].Source() == b
  {
    buckets := [];
    var b := 0;
    while b < |grouped|
      invariant 0 <= b <= |grouped| && |buckets| == b
      invariant forall b' :: 0 <= b' < b ==> buckets[b'] == ShuffleDown(grouped[b'], rands[b'], |grouped[b']|)
      invariant forall b' :: 0 <= b' < b ==> multiset(buckets[b']) == multiset(grouped[b'])
      invariant forall b', j :: 0 <= b' < b && 0 <= j < |buckets[b']| ==> buckets[b'][j].Source() == b'
    {
      var bucket := grouped[b];
      var shuffled := ShuffledCopy(bucket, rands[b]);
      var next := buckets + [shuffled];
      assert forall b' :: 0 <= b' <= b ==> next[b'] == ShuffleDown(grouped[b'], rands[b'], |grouped[b']|) by {
        forall b' | 0 <= b' <= b ensures next[b'] == ShuffleDown(grouped[b'], rands[b'], |grouped[b']|) {
          if b' < b { assert next[b'] == buckets[b']; }
        }
      }
      assert forall b' :: 0 <= b' <= b ==> multiset(next[b']) == multiset(grouped[b']) by {
        forall b' | 0 <= b' <= b ensures multiset(next[b']) == multiset(grouped[b']) {
          if b' < b { assert next[b'] == buckets[b']; }
        }
      }
      assert forall b', j :: 0 <= b' <= b && 0 <= j < |next[b']| ==> next[b'][j].Source() == b' by {
        forall b', j | 0 <= b' <= b && 0 <= j < |next[b']| ensures next[b'][j].Source() == b' {
          if b' < b {
            assert next[b'] == buckets[b'];
          } else {
            assert next[b'][j] in multiset(bucket);
          }
        }
      }
      buckets := next;
      b := b + 1;
    }
    assert grouped[..b] == grouped;
  }

  /** The state before step 0: the shuffled buckets, nothing used, zero counters, nothing selected. */
  function InitialState(cfg: Config, pp: seq<seq<Track>>, afMap: map<string, AudioFeatures>, rands: seq<seq<nat>>): State
    requires ValidRandomSource(rands, |pp|, cfg.maxTracks)
  {
    State(ShuffledBuckets(Prepared(cfg, pp, afMap), rands, cfg.maxTracks), {}, seq(|pp|, _ => 0), [])
  }

  /**
    The sequencing part of `/api/mix`: the URIs of the new playlist, in order. They are the
    URIs of the picks of the run from the shuffled buckets (`sel`, through the states `hist`),
    in pick order. Their number is capped by maxTracks and by the number of prepared
    candidates, no URI appears twice, and every URI is one of a prepared candidate's.
  */
  method Mix(cfg: Config, pp: seq<seq<Track>>, afMap: map<string, AudioFeatures>, rands: seq<seq<nat>>)
    returns (uris: seq<string>, ghost sel: seq<Candidate>, ghost hist: seq<State>)
    requires |pp| >= 1 && ValidRandomSource(rands, |pp|, cfg.maxTracks)
    ensures IsRun(cfg, InitialState(cfg, pp, afMap, rands), hist, sel)
    ensures uris == OrderedUris(sel)
    ensures |uris| <= cfg.maxTracks
    ensures |uris| <= |Prepared(cfg, pp, afMap)|
    ensures forall i, j :: 0 <= i < j < |uris| ==> uris[i] != uris[j]
    ensures forall u :: u in uris ==> exists k :: 0 <= k < |Prepared(cfg, pp, afMap)| && Prepared(cfg, pp, afMap)[k].Uri() == Some(u)
  {
    var buckets := Prepare(cfg, pp, afMap, rands);
    var sequencer := new Sequencer(cfg, buckets);
    hist := sequencer.Run();
    sel := sequencer.selected;
    uris := OrderedUris(sequencer.selected);
    OrderedUrisDistinct(sel);
    DrawnFromPrepared(sequencer.buckets, sel, Prepared(cfg, pp, afMap));
  }

  /** A selection drawn out of a pool of candidates is no longer than it and publishes only its URIs. */
  lemma DrawnFromPrepared(rest: seq<seq<Candidate>>, sel: seq<Candidate>, cs: seq<Candidate>)
    requires PoolOf(rest) + multiset(sel) == multiset(cs)
    ensures |sel| <= |cs|
    ensures forall u :: u in OrderedUris(sel) ==> exists k :: 0 <= k < |cs| && cs[k].Uri() == Some(u)
  {
    assert |multiset(sel)| <= |multiset(cs)|;
    forall u | u in OrderedUris(sel)
      ensures exists k :: 0 <= k < |cs| && cs[k].Uri() == Some(u)
    {
      var m :| 0 <= m < |sel| && sel[m].Uri() == Some(u);
      assert sel[m] in multiset(cs);
    }
  }
}
