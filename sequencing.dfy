/**
  The selector and the sequencer: the state of one run (buckets of remaining candidates, used
  URIs, per-playlist counters, the selection so far), what one pick does to it, the strict and
  flex pickers and the step loop.
*/
module Sequencing {
  import opened Util
  import opened Features
  import opened Candidates
  import opened Scoring

  /** How many leading entries of a bucket each policy looks at. */
  const StrictWindow: nat := 30
  const FlexWindow: nat := 20

  /** The mutable state of one run, as a value. */
  datatype State = State(
    buckets: seq<seq<Candidate>>,
    used: set<Option<string>>,
    counts: seq<nat>,
    selected: seq<Candidate>)

  /** The URIs (null included) of a list of candidates. */
  function Keys(sel: seq<Candidate>): set<Option<string>>
  {
    set k | 0 <= k < |sel| :: sel[k].Uri()
  }

  predicate DistinctUris(sel: seq<Candidate>)
  {
    forall i, j :: 0 <= i < j < |sel| ==> sel[i].Uri() != sel[j].Uri()
  }

  /** How many of the selected candidates come from playlist b. */
  function CountOf(sel: seq<Candidate>, b: nat): nat
  {
    if sel == [] then 0
    else CountOf(sel[..|sel| - 1], b) + (if sel[|sel| - 1].Source() == b then 1 else 0)
  }

  function Tally(sel: seq<Candidate>, n: nat): seq<nat>
  {
    seq(n, b requires 0 <= b < n => CountOf(sel, b))
  }

  function Sum(s: seq<nat>): nat
  {
    if s == [] then 0 else Sum(s[..|s| - 1]) + s[|s| - 1]
  }

  /**
    The invariant of a run: every bucket holds only its own playlist's candidates, the counters
    tally the selection per playlist, `used` is exactly the set of selected URIs, and no URI is
    selected twice.
  */
  predicate Inv(st: State)
  {
    Sourced(st)
    && (forall k :: 0 <= k < |st.selected| ==> st.selected[k].Source() < |st.counts|)
    && st.counts == Tally(st.selected, |st.counts|)
    && st.used == Keys(st.selected)
    && DistinctUris(st.selected)
  }

  /** At least one bucket, one counter per bucket, and every bucket holds only its own playlist. */
  predicate Sourced(st: State)
  {
    |st.buckets| >= 1 && |st.counts| == |st.buckets|
    && forall b, j :: 0 <= b < |st.buckets| && 0 <= j < |st.buckets[b]| ==> st.buckets[b][j].Source() == b
  }

  lemma {:induction false} SumBump(s: seq<nat>, b: nat)
    requires b < |s|
    ensures Sum(s[b := s[b] + 1]) == Sum(s) + 1
  {
    var n := |s| - 1;
    if b < n {
      assert s[b := s[b] + 1][..n] == s[..n][b := s[..n][b] + 1];
      SumBump(s[..n], b);
    } else {
      assert s[b := s[b] + 1][..n] == s[..n];
    }
  }

  lemma TallySnoc(sel: seq<Candidate>, c: Candidate, n: nat)
    requires c.Source() < n
    ensures Tally(sel + [c], n) == Tally(sel, n)[c.Source() := Tally(sel, n)[c.Source()] + 1]
  {
  }

  lemma {:induction false} TallySum(sel: seq<Candidate>, n: nat)
    requires forall k :: 0 <= k < |sel| ==> sel[k].Source() < n
    ensures Sum(Tally(sel, n)) == |sel|
  {
    if sel == [] {
      ZeroSum(Tally(sel, n));
    } else {
      var m := |sel| - 1;
      assert sel == sel[..m] + [sel[m]];
      TallySum(sel[..m], n);
      TallySnoc(sel[..m], sel[m], n);
      SumBump(Tally(sel[..m], n), sel[m].Source());
    }
  }

  lemma {:induction false} ZeroSum(s: seq<nat>)
    requires forall k :: 0 <= k < |s| ==> s[k] == 0
    ensures Sum(s) == 0
  {
    if s != [] {
      ZeroSum(s[..|s| - 1]);
    }
  }

  /** The counters always add up to the number of selected tracks. */
  lemma CountsMatchSelection(st: State)
    requires Inv(st)
    ensures Sum(st.counts) == |st.selected|
  {
    TallySum(st.selected, |st.counts|);
  }

  /** Entry j of bucket b lies in the first k entries and its URI is not used yet. */
  predicate Eligible(st: State, b: int, j: int, k: nat)
  {
    0 <= b < |st.buckets| && 0 <= j < Min(k, |st.buckets[b]|) && st.buckets[b][j].Uri() !in st.used
  }

  /** Nothing in the first k entries of bucket b can be picked. */
  ghost predicate NoneEligible(st: State, b: int, k: nat)
  {
    forall j :: !Eligible(st, b, j, k)
  }

  /** The score of entry j of bucket b in state st (0 for positions outside a state's invariant). */
  function ScoreAt(cfg: Config, st: State, b: int, j: int, step: nat): real
  {
    if 0 <= b < |st.buckets| && 0 <= j < |st.buckets[b]| && st.buckets[b][j].Source() < |st.counts|
    then Score(cfg, st.selected, st.counts, st.buckets[b][j], step)
    else 0.0
  }

  /** `pickFromBucket`'s choice: the first strictly minimal score among the eligible window entries. */
  ghost predicate IsBucketBest(cfg: Config, st: State, step: nat, b: nat, idx: nat, k: nat)
  {
    Eligible(st, b, idx, k) &&
    forall j :: Eligible(st, b, j, k) ==>
      ScoreAt(cfg, st, b, idx, step) <= ScoreAt(cfg, st, b, j, step) &&
      (j < idx ==> ScoreAt(cfg, st, b, idx, step) < ScoreAt(cfg, st, b, j, step))
  }

  /**
    `pickGlobal`'s choice: the minimal score over every bucket's window; ties go to the lower
    bucket, then to the lower position.
  */
  ghost predicate IsGlobalBest(cfg: Config, st: State, step: nat, b: nat, idx: nat, k: nat)
  {
    Eligible(st, b, idx, k) &&
    forall b', j :: Eligible(st, b', j, k) ==>
      ScoreAt(cfg, st, b, idx, step) <= ScoreAt(cfg, st, b', j, step) &&
      ((b' < b || (b' == b && j < idx)) ==> ScoreAt(cfg, st, b, idx, step) < ScoreAt(cfg, st, b', j, step))
  }

  /** The tie-break makes the bucket choice unique. */
  lemma BucketBestUnique(cfg: Config, st: State, step: nat, b: nat, i1: nat, i2: nat, k: nat)
    requires Inv(st) && IsBucketBest(cfg, st, step, b, i1, k) && IsBucketBest(cfg, st, step, b, i2, k)
    ensures i1 == i2
  {
  }

  /** The tie-break makes the global choice unique. */
  lemma GlobalBestUnique(cfg: Config, st: State, step: nat, b1: nat, i1: nat, b2: nat, i2: nat, k: nat)
    requires Inv(st) && IsGlobalBest(cfg, st, step, b1, i1, k) && IsGlobalBest(cfg, st, step, b2, i2, k)
    ensures b1 == b2 && i1 == i2
  {
  }

  /** The global choice is also the best of its own bucket's window. */
  lemma GlobalBestIsBucketBest(cfg: Config, st: State, step: nat, b: nat, idx: nat, k: nat)
    requires Inv(st) && IsGlobalBest(cfg, st, step, b, idx, k)
    ensures IsBucketBest(cfg, st, step, b, idx, k)
  {
  }

  /** Position (b, j) comes before position (bi, i) in `pickGlobal`'s scan order. */
  predicate Before(b: int, j: int, bi: nat, i: nat)
  {
    0 <= b < bi || (b == bi && j < i)
  }

  /**
    The state of `pickGlobal`'s scan at position (bi, i): best is the first strictly minimal
    eligible entry among the positions scanned so far, and None only if there was none.
  */
  ghost predicate BestSoFar(cfg: Config, st: State, step: nat, best: Option<(nat, nat)>, bestScore: real, bi: nat, i: nat)
  {
    (best.None? ==> forall b, j :: Before(b, j, bi, i) ==> !Eligible(st, b, j, FlexWindow))
    && (best.Some? ==>
      Before(best.value.0, best.value.1, bi, i)
      && Eligible(st, best.value.0, best.value.1, FlexWindow)
      && bestScore == ScoreAt(cfg, st, best.value.0, best.value.1, step)
      && forall b, j :: Before(b, j, bi, i) && Eligible(st, b, j, FlexWindow) ==>
        bestScore <= ScoreAt(cfg, st, b, j, step) &&
        ((b < best.value.0 || (b == best.value.0 && j < best.value.1)) ==> bestScore < ScoreAt(cfg, st, b, j, step)))
  }

  /** A scanned entry that is not eligible or not strictly better leaves the best unchanged. */
  lemma ScanKeeps(cfg: Config, st: State, step: nat, best: Option<(nat, nat)>, bestScore: real, bi: nat, i: nat)
    requires BestSoFar(cfg, st, step, best, bestScore, bi, i)
    requires Eligible(st, bi, i, FlexWindow) ==> best.Some? && bestScore <= ScoreAt(cfg, st, bi, i, step)
    ensures BestSoFar(cfg, st, step, best, bestScore, bi, i + 1)
  {
  }

  /** An eligible entry that beats the best so far (or is the first) becomes the best. */
  lemma ScanTakes(cfg: Config, st: State, step: nat, best: Option<(nat, nat)>, bestScore: real, bi: nat, i: nat)
    requires BestSoFar(cfg, st, step, best, bestScore, bi, i)
    requires Eligible(st, bi, i, FlexWindow)
    requires best.None? || ScoreAt(cfg, st, bi, i, step) < bestScore
    ensures BestSoFar(cfg, st, step, Some((bi, i)), ScoreAt(cfg, st, bi, i, step), bi, i + 1)
  {
  }

  /** Past its window, nothing more of bucket bi can be eligible. */
  lemma ScanLeaves(cfg: Config, st: State, step: nat, best: Option<(nat, nat)>, bestScore: real, bi: nat)
    requires bi < |st.buckets|
    requires BestSoFar(cfg, st, step, best, bestScore, bi, Min(FlexWindow, |st.buckets[bi]|))
    ensures BestSoFar(cfg, st, step, best, bestScore, bi + 1, 0)
  {
  }

  function RemoveAt<T>(s: seq<T>, i: nat): seq<T>
    requires i < |s|
  {
    s[..i] + s[i + 1..]
  }

  /**
    What a pick of entry idx of bucket b does: its URI becomes used, its playlist's counter
    goes up by one, it is appended to the selection and it leaves its bucket.
  */
  function Pick(st: State, b: nat, idx: nat): State
    requires Inv(st) && b < |st.buckets| && idx < |st.buckets[b]|
  {
    var c := st.buckets[b][idx];
    State(
      st.buckets[b := RemoveAt(st.buckets[b], idx)],
      st.used + {c.Uri()},
      st.counts[c.Source() := st.counts[c.Source()] + 1],
      st.selected + [c])
  }

  /** A pick of an unused entry keeps the invariant and moves exactly that candidate out of the pool. */
  lemma PickPreservesInv(st: State, b: nat, idx: nat)
    requires Inv(st) && b < |st.buckets| && idx < |st.buckets[b]|
    requires st.buckets[b][idx].Uri() !in st.used
    ensures Inv(Pick(st, b, idx))
    ensures PoolOf(Pick(st, b, idx).buckets) + multiset{st.buckets[b][idx]} == PoolOf(st.buckets)
  {
    var c := st.buckets[b][idx];
    PickKeepsBuckets(st.buckets, b, idx);
    TallySnoc(st.selected, c, |st.counts|);
    KeysSnoc(st.selected, c);
    DistinctSnoc(st.selected, c);
    var next := Pick(st, b, idx);
    assert next.selected == st.selected + [c];
    assert forall k :: 0 <= k < |next.selected| ==> next.selected[k].Source() < |next.counts| by {
      forall k | 0 <= k < |next.selected| ensures next.selected[k].Source() < |next.counts| {
        if k < |st.selected| { assert next.selected[k] == st.selected[k]; }
      }
    }
  }

  lemma DistinctSnoc(sel: seq<Candidate>, c: Candidate)
    requires DistinctUris(sel) && c.Uri() !in Keys(sel)
    ensures DistinctUris(sel + [c])
  {
  }

  /** Removing entry idx of bucket b keeps every bucket single-sourced and takes it out of the pool. */
  lemma PickKeepsBuckets(bs: seq<seq<Candidate>>, b: nat, idx: nat)
    requires b < |bs| && idx < |bs[b]|
    requires forall b', j :: 0 <= b' < |bs| && 0 <= j < |bs[b']| ==> bs[b'][j].Source() == b'
    ensures var next := bs[b := RemoveAt(bs[b], idx)];
      (forall b', j :: 0 <= b' < |next| && 0 <= j < |next[b']| ==> next[b'][j].Source() == b')
      && PoolOf(next) + multiset{bs[b][idx]} == PoolOf(bs)
  {
    RemoveShrinksPool(bs, b, idx);
    var s: seq<Candidate> := bs[b];
    var next: seq<seq<Candidate>> := bs[b := RemoveAt(s, idx)];
    forall b', j | 0 <= b' < |next| && 0 <= j < |next[b']|
      ensures next[b'][j].Source() == b'
    {
      if b' == b {
        assert next[b][j] == (if j < idx then s[j] else s[j + 1]);
      }
    }
  }

  lemma RemoveShrinksPool(bs: seq<seq<Candidate>>, b: nat, idx: nat)
    requires b < |bs| && idx < |bs[b]|
    ensures PoolOf(bs[b := RemoveAt(bs[b], idx)]) + multiset{bs[b][idx]} == PoolOf(bs)
  {
    var c := bs[b][idx];
    var s := bs[b];
    var next := bs[b := RemoveAt(s, idx)];
    assert s == s[..idx] + [c] + s[idx + 1..];
    assert multiset(s) == multiset(next[b]) + multiset{c};
    assert next[b := s] == bs;
    PoolGrow(next, b, s, multiset{c});
  }

  lemma KeysSnoc(sel: seq<Candidate>, c: Candidate)
    ensures Keys(sel + [c]) == Keys(sel) + {c.Uri()}
  {
    var sel' := sel + [c];
    assert sel'[|sel|] == c;
    forall u | u in Keys(sel') ensures u in Keys(sel) + {c.Uri()} {
      var k :| 0 <= k < |sel'| && sel'[k].Uri() == u;
      if k < |sel| { assert sel'[k] == sel[k]; }
    }
    forall u | u in Keys(sel) ensures u in Keys(sel') {
      var k :| 0 <= k < |sel| && sel[k].Uri() == u;
      assert sel'[k] == sel[k];
    }
  }

  /** Position u of the strict probing order at step `step`: `(step % n + u) % n`. */
  function Probe(step: nat, u: nat, n: nat): nat
    requires n >= 1
  {
    (step % n + u) % n
  }

  /** The n probes of a strict step visit every bucket. */
  lemma ProbeCovers(step: nat, n: nat, b: nat)
    requires n >= 1 && b < n
    ensures exists u :: 0 <= u < n && Probe(step, u, n) == b
  {
    var r := step % n;
    var u := if b >= r then b - r else b - r + n;
    WrapOnce(r + u, n);
    assert Probe(step, u, n) == b;
  }

  /** `x % n` for 0 <= x < 2n. */
  lemma WrapOnce(x: int, n: int)
    requires n >= 1 && 0 <= x < 2 * n
    ensures x % n == if x < n then x else x - n
  {
  }

  function WindowFor(mode: Mode): nat
  {
    if mode.Strict? then StrictWindow else FlexWindow
  }

  /**
    The pick the active policy makes at step `step` in state st: in strict mode the strict best
    of the first bucket, in round-robin order from `step % n`, whose window has an unused entry;
    in flex mode the global best.
  */
  ghost predicate StepChoice(cfg: Config, st: State, step: nat, b: nat, idx: nat)
  {
    if cfg.mode.Strict? then
      exists u: nat :: StrictChoiceAt(cfg, st, step, b, idx, u)
    else
      IsGlobalBest(cfg, st, step, b, idx, FlexWindow)
  }

  /** The strict choice reached at probe u: probes 0 .. u - 1 yield nothing, probe u yields (b, idx). */
  ghost predicate StrictChoiceAt(cfg: Config, st: State, step: nat, b: nat, idx: nat, u: nat)
  {
    u < |st.buckets| && b == Probe(step, u, |st.buckets|)
    && (forall v :: 0 <= v < u ==> NoneEligible(st, Probe(step, v, |st.buckets|), StrictWindow))
    && IsBucketBest(cfg, st, step, b, idx, StrictWindow)
  }

  /** Step `step` takes state st to st2 by picking c, the active policy's choice. */
  ghost predicate IsStep(cfg: Config, st: State, step: nat, st2: State, c: Candidate)
  {
    exists b: nat, idx: nat :: StepVia(cfg, st, step, st2, c, b, idx)
  }

  /** Step `step` picks c, the entry idx of bucket b, as the policy's choice. */
  ghost predicate StepVia(cfg: Config, st: State, step: nat, st2: State, c: Candidate, b: nat, idx: nat)
  {
    Inv(st) && b < |st.buckets| && idx < |st.buckets[b]| && StepChoice(cfg, st, step, b, idx)
    && c == st.buckets[b][idx] && st2 == Pick(st, b, idx)
  }

  /** hist[s + 1] follows from hist[s] by step s, which picks sel[s], for every pick of sel. */
  ghost predicate StepsUpTo(cfg: Config, hist: seq<State>, sel: seq<Candidate>)
    decreases |sel|
  {
    |hist| == |sel| + 1
    && (|sel| > 0 ==>
          var k := |sel| - 1;
          StepsUpTo(cfg, hist[..k + 1], sel[..k]) && IsStep(cfg, hist[k], k, hist[k + 1], sel[k]))
  }

  lemma StepsSnoc(cfg: Config, hist: seq<State>, sel: seq<Candidate>, st2: State, c: Candidate)
    requires StepsUpTo(cfg, hist, sel) && IsStep(cfg, hist[|sel|], |sel|, st2, c)
    ensures StepsUpTo(cfg, hist + [st2], sel + [c])
  {
    assert (hist + [st2])[..|sel| + 1] == hist;
    assert (sel + [c])[..|sel|] == sel;
  }

  /** Each step s of a history is a policy step. */
  lemma {:induction false} StepAt(cfg: Config, hist: seq<State>, sel: seq<Candidate>, s: nat)
    requires StepsUpTo(cfg, hist, sel) && s < |sel|
    ensures IsStep(cfg, hist[s], s, hist[s + 1], sel[s])
    decreases |sel|
  {
    var k := |sel| - 1;
    if s < k {
      StepAt(cfg, hist[..k + 1], sel[..k], s);
      assert hist[..k + 1][s] == hist[s] && hist[..k + 1][s + 1] == hist[s + 1] && sel[..k][s] == sel[s];
    }
  }

  /** A step moves exactly the picked candidate out of the pool. */
  lemma StepKeepsPool(cfg: Config, st: State, step: nat, st2: State, c: Candidate)
    requires IsStep(cfg, st, step, st2, c)
    ensures PoolOf(st2.buckets) + multiset{c} == PoolOf(st.buckets)
  {
    var b: nat, idx: nat :| StepVia(cfg, st, step, st2, c, b, idx);
    ChoiceIsEligible(cfg, st, step, b, idx);
    PickPreservesInv(st, b, idx);
  }

  /** Every candidate a run picks leaves the pool, and nothing else does. */
  lemma {:induction false} RunKeepsPool(cfg: Config, hist: seq<State>, sel: seq<Candidate>)
    requires StepsUpTo(cfg, hist, sel)
    ensures PoolOf(hist[|sel|].buckets) + multiset(sel) == PoolOf(hist[0].buckets)
    decreases |sel|
  {
    if |sel| > 0 {
      var k := |sel| - 1;
      RunKeepsPool(cfg, hist[..k + 1], sel[..k]);
      assert hist[..k + 1][k] == hist[k] && hist[..k + 1][0] == hist[0];
      StepKeepsPool(cfg, hist[k], k, hist[k + 1], sel[k]);
      PrefixSnoc(sel, k);
      assert sel[..k + 1] == sel;
    }
  }

  /**
    A whole run from st0: the states hist[0] = st0, hist[1], ... and the picks sel, one policy
    step each, at most maxTracks of them, stopping early only when every window is exhausted.
  */
  ghost predicate IsRun(cfg: Config, st0: State, hist: seq<State>, sel: seq<Candidate>)
  {
    StepsUpTo(cfg, hist, sel) && hist[0] == st0 && |sel| <= cfg.maxTracks
    && (|sel| < cfg.maxTracks ==>
          forall b :: 0 <= b < |hist[|sel|].buckets| ==> NoneEligible(hist[|sel|], b, WindowFor(cfg.mode)))
  }

  /** A policy's choice is an unused entry of its window. */
  lemma ChoiceIsEligible(cfg: Config, st: State, step: nat, b: nat, idx: nat)
    requires StepChoice(cfg, st, step, b, idx)
    ensures Eligible(st, b, idx, WindowFor(cfg.mode))
    ensures !NoneEligible(st, b, WindowFor(cfg.mode))
  {
    if cfg.mode.Strict? {
      var u: nat :| StrictChoiceAt(cfg, st, step, b, idx, u);
    }
  }

  /** Each step has exactly one outcome. */
  lemma StepDeterministic(cfg: Config, st: State, step: nat, st1: State, c1: Candidate, st2: State, c2: Candidate)
    requires IsStep(cfg, st, step, st1, c1) && IsStep(cfg, st, step, st2, c2)
    ensures c1 == c2 && st1 == st2
  {
    var b1: nat, i1: nat :| StepVia(cfg, st, step, st1, c1, b1, i1);
    var b2: nat, i2: nat :| StepVia(cfg, st, step, st2, c2, b2, i2);
    ChoiceUnique(cfg, st, step, b1, i1, b2, i2);
  }

  /** The active policy's choice is unique. */
  lemma ChoiceUnique(cfg: Config, st: State, step: nat, b1: nat, i1: nat, b2: nat, i2: nat)
    requires Inv(st) && StepChoice(cfg, st, step, b1, i1) && StepChoice(cfg, st, step, b2, i2)
    ensures b1 == b2 && i1 == i2
  {
    var n := |st.buckets|;
    if cfg.mode.Strict? {
      var u1: nat :| StrictChoiceAt(cfg, st, step, b1, i1, u1);
      var u2: nat :| StrictChoiceAt(cfg, st, step, b2, i2, u2);
      if u1 < u2 {
        assert false;
      } else if u2 < u1 {
        assert false;
      }
      BucketBestUnique(cfg, st, step, b1, i1, i2, StrictWindow);
    } else {
      GlobalBestUnique(cfg, st, step, b1, i1, b2, i2, FlexWindow);
    }
  }

  /** Two runs from the same state agree on their first k steps. */
  lemma {:induction false} RunsAgree(cfg: Config, st0: State, h1: seq<State>, s1: seq<Candidate>,
                                     h2: seq<State>, s2: seq<Candidate>, k: nat)
    requires StepsUpTo(cfg, h1, s1) && StepsUpTo(cfg, h2, s2) && h1[0] == st0 && h2[0] == st0
    requires k <= |s1| && k <= |s2|
    ensures h1[..k + 1] == h2[..k + 1] && s1[..k] == s2[..k]
  {
    if k > 0 {
      RunsAgree(cfg, st0, h1, s1, h2, s2, k - 1);
      assert h1[k - 1] == h2[k - 1] by {
        assert h1[..k][k - 1] == h2[..k][k - 1];
      }
      StepAt(cfg, h1, s1, k - 1);
      StepAt(cfg, h2, s2, k - 1);
      StepDeterministic(cfg, h1[k - 1], k - 1, h1[k], s1[k - 1], h2[k], s2[k - 1]);
      PrefixSnoc(h1, k);
      PrefixSnoc(h2, k);
      PrefixSnoc(s1, k - 1);
      PrefixSnoc(s2, k - 1);
    }
  }

  /** The run is fixed by its starting state: the same picks and the same states. */
  lemma RunDeterministic(cfg: Config, st0: State, h1: seq<State>, s1: seq<Candidate>,
                         h2: seq<State>, s2: seq<Candidate>)
    requires IsRun(cfg, st0, h1, s1) && IsRun(cfg, st0, h2, s2)
    ensures s1 == s2 && h1 == h2
  {
    ShorterRunStops(cfg, st0, h1, s1, h2, s2);
    ShorterRunStops(cfg, st0, h2, s2, h1, s1);
    RunsAgree(cfg, st0, h1, s1, h2, s2, |s1|);
    assert s1 == s1[..|s1|] && s2 == s2[..|s2|];
    assert h1 == h1[..|s1| + 1] && h2 == h2[..|s2| + 1];
  }

  /** A run cannot stop at a step where another run from the same state still picks. */
  lemma ShorterRunStops(cfg: Config, st0: State, h1: seq<State>, s1: seq<Candidate>,
                        h2: seq<State>, s2: seq<Candidate>)
    requires IsRun(cfg, st0, h1, s1) && IsRun(cfg, st0, h2, s2)
    ensures |s2| <= |s1|
  {
    if |s1| < |s2| {
      var k := |s1|;
      RunsAgree(cfg, st0, h1, s1, h2, s2, k);
      assert h1[k] == h2[k] by {
        assert h1[..k + 1][k] == h2[..k + 1][k];
      }
      StepAt(cfg, h2, s2, k);
      var b: nat, idx: nat :| StepVia(cfg, h2[k], k, h2[k + 1], s2[k], b, idx);
      ChoiceIsEligible(cfg, h2[k], k, b, idx);
      assert false;
    }
  }

  /** The scan of `pickFromBucket`: the index of the best entry in the window of bucket bi. */
  method ScanBucket(cfg: Config, st: State, bi: nat, step: nat) returns (best: Option<nat>)
    requires Sourced(st) && bi < |st.buckets|
    ensures best.None? <==> NoneEligible(st, bi, StrictWindow)
    ensures best.Some? ==> IsBucketBest(cfg, st, step, bi, best.value, StrictWindow)
  {
    var bucket := st.buckets[bi];
    best := None;
    var bestScore := 0.0;
    var k := Min(StrictWindow, |bucket|);
    var i := 0;
    while i < |bucket| && i < k
      invariant 0 <= i <= k
      invariant best.None? ==> forall j :: 0 <= j < i ==> !Eligible(st, bi, j, StrictWindow)
      invariant best.Some? ==>
        best.value < i && Eligible(st, bi, best.value, StrictWindow) &&
        bestScore == ScoreAt(cfg, st, bi, best.value, step)
      invariant best.Some? ==>
        forall j :: 0 <= j < i && Eligible(st, bi, j, StrictWindow) ==>
          bestScore <= ScoreAt(cfg, st, bi, j, step) &&
          (j < best.value ==> bestScore < ScoreAt(cfg, st, bi, j, step))
    {
      var c := bucket[i];
      if c.Uri() !in st.used {
        var sc := Score(cfg, st.selected, st.counts, c, step);
        if best.None? || sc < bestScore {
          bestScore := sc;
          best := Some(i);
        }
      }
      i := i + 1;
    }
  }

  /**
    The scan of `pickGlobal` over bucket bi: carries the best entry so far from the buckets
    before bi to the buckets up to bi.
  */
  method ScanWindow(cfg: Config, st: State, bi: nat, step: nat, best0: Option<(nat, nat)>, score0: real)
    returns (best: Option<(nat, nat)>, bestScore: real)
    requires Sourced(st) && bi < |st.buckets|
    requires BestSoFar(cfg, st, step, best0, score0, bi, 0)
    ensures BestSoFar(cfg, st, step, best, bestScore, bi + 1, 0)
  {
    best, bestScore := best0, score0;
    var bucket := st.buckets[bi];
    if |bucket| > 0 {
      var k := Min(FlexWindow, |bucket|);
      var i := 0;
      while i < k
        invariant 0 <= i <= k
        invariant BestSoFar(cfg, st, step, best, bestScore, bi, i)
      {
        var c := bucket[i];
        if c.Uri() !in st.used {
          var sc := Score(cfg, st.selected, st.counts, c, step);
          assert Eligible(st, bi, i, FlexWindow) && sc == ScoreAt(cfg, st, bi, i, step);
          if best.None? || sc < bestScore {
            ScanTakes(cfg, st, step, best, bestScore, bi, i);
            bestScore := sc;
            best := Some((bi, i));
          } else {
            ScanKeeps(cfg, st, step, best, bestScore, bi, i);
          }
        } else {
          ScanKeeps(cfg, st, step, best, bestScore, bi, i);
        }
        i := i + 1;
      }
    }
    ScanLeaves(cfg, st, step, best, bestScore, bi);
  }

  /** The scan of `pickGlobal`: the bucket and index of the best entry over all windows. */
  method ScanGlobal(cfg: Config, st: State, step: nat) returns (best: Option<(nat, nat)>)
    requires Sourced(st)
    ensures best.None? <==> forall b :: 0 <= b < |st.buckets| ==> NoneEligible(st, b, FlexWindow)
    ensures best.Some? ==> IsGlobalBest(cfg, st, step, best.value.0, best.value.1, FlexWindow)
  {
    best := None;
    var bestScore := 0.0;
    var bi := 0;
    while bi < |st.buckets|
      invariant 0 <= bi <= |st.buckets|
      invariant BestSoFar(cfg, st, step, best, bestScore, bi, 0)
    {
      best, bestScore := ScanWindow(cfg, st, bi, step, best, bestScore);
      bi := bi + 1;
    }
    if best.Some? {
      assert !NoneEligible(st, best.value.0, FlexWindow);
    }
  }

  /** The mutable state of one mix run. */
  class Sequencer {
    const cfg: Config
    const counts: array<nat>
    var buckets: seq<seq<Candidate>>
    var used: set<Option<string>>
    var selected: seq<Candidate>

    function Snapshot(): State
      reads this, counts
    {
      State(buckets, used, counts[..], selected)
    }

    ghost predicate Valid()
      reads this, counts
    {
      Inv(Snapshot())
    }

    /** `selected = []`, `used = new Set()`, `counts = playlistIds.map(() => 0)`. */
    constructor (cfg: Config, buckets: seq<seq<Candidate>>)
      requires |buckets| >= 1
      requires forall b, j :: 0 <= b < |buckets| && 0 <= j < |buckets[b]| ==> buckets[b][j].Source() == b
      ensures Valid() && fresh(counts)
      ensures this.cfg == cfg
      ensures Snapshot() == State(buckets, {}, seq(|buckets|, _ => 0), [])
    {
      this.cfg := cfg;
      this.buckets := buckets;
      used := {};
      selected := [];
      counts := new nat[|buckets|](_ => 0);
      new;
      assert Keys([]) == {};
      assert Tally([], |buckets|) == counts[..];
    }

    /** Takes entry idx of bucket b into the selection (the common tail of both pickers). */
    method Take(b: nat, idx: nat) returns (c: Candidate)
      requires Valid() && b < |buckets| && idx < |buckets[b]|
      requires buckets[b][idx].Uri() !in used
      modifies this, counts
      ensures Valid()
      ensures c == old(buckets[b][idx])
      ensures Snapshot() == Pick(old(Snapshot()), b, idx)
      ensures selected == old(selected) + [c]
      ensures PoolOf(buckets) + multiset{c} == old(PoolOf(buckets))
    {
      ghost var st := Snapshot();
      PickPreservesInv(st, b, idx);
      c := buckets[b][idx];
      used := used + {c.Uri()};
      counts[c.Source()] := counts[c.Source()] + 1;
      selected := selected + [c];
      buckets := buckets[b := RemoveAt(buckets[b], idx)];
    }

    /** `pickFromBucket(bucketIndex, step)`: the strict policy's look at one bucket. */
    method PickFromBucket(bi: nat, step: nat) returns (picked: Option<Candidate>)
      requires Valid() && bi < |buckets|
      modifies this, counts
      ensures Valid()
      ensures picked.None? <==> NoneEligible(old(Snapshot()), bi, StrictWindow)
      ensures picked.None? ==> Snapshot() == old(Snapshot())
      ensures picked.Some? ==>
        exists idx: nat :: IsBucketBest(cfg, old(Snapshot()), step, bi, idx, StrictWindow)
                      && picked.value == old(buckets[bi][idx])
                      && Snapshot() == Pick(old(Snapshot()), bi, idx)
      ensures picked.Some? ==> selected == old(selected) + [picked.value]
      ensures picked.Some? ==> PoolOf(buckets) + multiset{picked.value} == old(PoolOf(buckets))
    {
      var best := ScanBucket(cfg, Snapshot(), bi, step);
      if best.None? {
        return None;
      }
      var c := Take(bi, best.value);
      picked := Some(c);
    }

    /** `pickGlobal(step)`: the flex policy's look at every bucket. */
    method PickGlobal(step: nat) returns (picked: Option<Candidate>)
      requires Valid()
      modifies this, counts
      ensures Valid()
      ensures picked.None? <==> forall b :: 0 <= b < |old(buckets)| ==> NoneEligible(old(Snapshot()), b, FlexWindow)
      ensures picked.None? ==> Snapshot() == old(Snapshot())
      ensures picked.Some? ==>
        exists b: nat, idx: nat :: IsGlobalBest(cfg, old(Snapshot()), step, b, idx, FlexWindow)
                         && picked.value == old(buckets[b][idx])
                         && Snapshot() == Pick(old(Snapshot()), b, idx)
      ensures picked.Some? ==> selected == old(selected) + [picked.value]
      ensures picked.Some? ==> PoolOf(buckets) + multiset{picked.value} == old(PoolOf(buckets))
    {
      var best := ScanGlobal(cfg, Snapshot(), step);
      if best.None? {
        return None;
      }
      var (b, idx) := best.value;
      var c := Take(b, idx);
      picked := Some(c);
    }

    /**
      One strict step: bucket `step % n` first, then the next buckets in round-robin order,
      until one of them yields a pick.
    */
    method StrictStep(step: nat) returns (picked: Option<Candidate>)
      requires Valid()
      modifies this, counts
      ensures Valid()
      ensures picked.None? <==> forall b :: 0 <= b < |old(buckets)| ==> NoneEligible(old(Snapshot()), b, StrictWindow)
      ensures picked.None? ==> Snapshot() == old(Snapshot())
      ensures picked.Some? ==>
        exists u: nat, idx: nat ::
          u < |old(buckets)|
          && (forall v :: 0 <= v < u ==> NoneEligible(old(Snapshot()), Probe(step, v, |old(buckets)|), StrictWindow))
          && IsBucketBest(cfg, old(Snapshot()), step, Probe(step, u, |old(buckets)|), idx, StrictWindow)
          && picked.value == old(buckets)[Probe(step, u, |old(buckets)|)][idx]
          && Snapshot() == Pick(old(Snapshot()), Probe(step, u, |old(buckets)|), idx)
      ensures picked.Some? ==> selected == old(selected) + [picked.value]
      ensures picked.Some? ==> PoolOf(buckets) + multiset{picked.value} == old(PoolOf(buckets))
    {
      ghost var st := Snapshot();
      var n := |buckets|;
      var bi := step % n;
      assert Probe(step, 0, n) == bi;
      picked := PickFromBucket(bi, step);
      if picked.Some? {
        assert !NoneEligible(st, bi, StrictWindow);
        return;
      }
      var tries := 1;
      while tries < n
        invariant 1 <= tries <= n && |buckets| == n
        invariant Valid() && Snapshot() == st && picked.None?
        invariant forall v :: 0 <= v < tries ==> NoneEligible(st, Probe(step, v, n), StrictWindow)
      {
        var alt := (bi + tries) % n;
        assert alt == Probe(step, tries, n);
        picked := PickFromBucket(alt, step);
        if picked.Some? {
          assert !NoneEligible(st, alt, StrictWindow);
          return;
        }
        tries := tries + 1;
      }
      forall b | 0 <= b < n ensures NoneEligible(st, b, StrictWindow) {
        ProbeCovers(step, n, b);
      }
    }

    /** One step of the loop: the strict or the flex picker, as the mode says. */
    method Step(step: nat) returns (picked: Option<Candidate>)
      requires Valid()
      modifies this, counts
      ensures Valid()
      ensures picked.None? ==> Snapshot() == old(Snapshot())
      ensures picked.None? ==>
        forall b :: 0 <= b < |buckets| ==> NoneEligible(Snapshot(), b, WindowFor(cfg.mode))
      ensures picked.Some? ==> IsStep(cfg, old(Snapshot()), step, Snapshot(), picked.value)
      ensures picked.Some? ==> selected == old(selected) + [picked.value]
      ensures picked.Some? ==> PoolOf(buckets) + multiset{picked.value} == old(PoolOf(buckets))
    {
      ghost var st := Snapshot();
      ghost var n := |buckets|;
      if cfg.mode.Strict? {
        picked := StrictStep(step);
        if picked.Some? {
          ghost var u: nat, idx: nat :|
            u < n
            && (forall v :: 0 <= v < u ==> NoneEligible(st, Probe(step, v, n), StrictWindow))
            && IsBucketBest(cfg, st, step, Probe(step, u, n), idx, StrictWindow)
            && picked.value == st.buckets[Probe(step, u, n)][idx]
            && Snapshot() == Pick(st, Probe(step, u, n), idx);
          assert StrictChoiceAt(cfg, st, step, Probe(step, u, n), idx, u);
          assert StepVia(cfg, st, step, Snapshot(), picked.value, Probe(step, u, n), idx);
        }
      } else {
        picked := PickGlobal(step);
        if picked.Some? {
          ghost var b: nat, idx: nat :|
            IsGlobalBest(cfg, st, step, b, idx, FlexWindow)
            && picked.value == st.buckets[b][idx]
            && Snapshot() == Pick(st, b, idx);
          assert StepVia(cfg, st, step, Snapshot(), picked.value, b, idx);
        }
      }
    }

    /**
      The step loop: steps 0 .. maxTracks - 1, one pick per step, stopping at the first step
      that picks nothing.
    */
    method Run() returns (ghost hist: seq<State>)
      requires Valid() && selected == []
      modifies this, counts
      ensures Valid()
      ensures IsRun(cfg, old(Snapshot()), hist, selected) && Snapshot() == hist[|hist| - 1]
      ensures |selected| <= cfg.maxTracks
      ensures Sum(counts[..]) == |selected|
      ensures DistinctUris(selected)
      ensures |selected| < cfg.maxTracks ==>
        forall b :: 0 <= b < |buckets| ==>
          NoneEligible(Snapshot(), b, WindowFor(cfg.mode))
      ensures PoolOf(buckets) + multiset(selected) == old(PoolOf(buckets))
    {
      hist := [Snapshot()];
      var step := 0;
      while step < cfg.maxTracks
        invariant 0 <= step <= cfg.maxTracks
        invariant Valid() && |selected| == step
        invariant |hist| == step + 1 && hist[0] == old(Snapshot()) && hist[step] == Snapshot()
        invariant StepsUpTo(cfg, hist, selected)
      {
        ghost var before := selected;
        var picked := Step(step);
        if picked.None? {
          break;
        }
        StepsSnoc(cfg, hist, before, Snapshot(), picked.value);
        hist := hist + [Snapshot()];
        step := step + 1;
      }
      CountsMatchSelection(Snapshot());
      RunKeepsPool(cfg, hist, selected);
    }
  }
}
