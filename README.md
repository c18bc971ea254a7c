# Playlist mix sequencer — a Dafny model

This project models the sequencing engine behind the `/api/mix` request of the playlist mixer
(`index.js`, lines 102-420). Given the track lists of several source playlists and a map of
audio-feature records, the engine builds one new playlist:

1. it flattens the lists into candidates tagged with their source playlist, optionally keeps
   only the first occurrence of every track URI, and caps the pool at 5 × maxTracks;
2. it computes a feature vector for every candidate (energy, valence, danceability, tempo,
   loudness, duration, acousticness, speechiness, defaults for missing data, tempo / loudness /
   duration rescaled into [0, 1]);
3. it puts every candidate into its playlist's bucket and Fisher-Yates shuffles each bucket;
4. it picks greedily, one track per step, by a score made of the transition distance from the
   previous pick (or the distance to the curve's start), the distance to the energy/valence
   curve target, and the artist, same-playlist, fairness and duration-jump penalties.
   The *strict* policy scans the first 30 entries of bucket `step % n` and then probes the
   following buckets round-robin. The *flex* policy scans the first 20 entries of every bucket
   and takes the global best. The loop stops at the first step that picks nothing;
5. it returns the URIs of the picks in order, dropping null ones.

The modules follow those stages:

- `Util` — `Option`, `Min`, real `Abs` / `RMin` / `RMax`.
- `Features` — `Clamp01`, `Norm`, the track and audio-feature records, `Vectorize`, the curves
  (`TargetAt`), `Distance` and `TargetPenalty`.
- `Candidates` — `TrackKey`, `ArtistId`, the flattening loop, the de-duplication filter, the
  cap, the vector precompute, bucketing and the in-place shuffle of an array.
- `Scoring` — the run configuration, the four penalties, `CurveTime` and `Score`.
- `Sequencing` — the run state as a value (`State`, its invariant `Inv`, and `Pick`, which
  says what one pick does), the read-only scans of both policies, and the class `Sequencer`.
  The class holds the state that the source mutates: the counters array, the buckets, the
  `used` set and the selection. Its pickers, the strict step and the step loop are methods.
- `Pipeline` — the prepared candidate list as a function, `Prepare` (stages 1-3),
  `OrderedUris` and `Mix`, the whole run.

Modelling decisions:

- Floating point is modelled by exact reals. `Math.sin(2πt)` is the configuration's `sine`
  function, given as a parameter. The wave curve is proved to stay in [0, 1] whenever
  `sine(t)` lies in [-1, 1].
- `Math.random` is replaced by injected draws. For each bucket a sequence `rand` supplies the
  swap index `j` of every position `i`, and `ValidDraws` requires `rand[i] <= i`, which is
  what `Math.floor(Math.random() * (i + 1))` guarantees.
- `mode === "strict"` selects `Strict`; every other mode string selects `Flex`. The curve names
  `build`, `cooldown` and `wave` select their curves; every other name selects `Steady`.
- A missing or empty track id is the empty string, and so is a missing artist id. A null URI
  is `None`, and it takes part in the `used` set as `None`, exactly as `null` does in the
  source's `Set`.
- `bestScore = Infinity` with `best = null` is an `Option` holding the best position so far.
- `bucket.indexOf(best)` finds the object that was just scanned, because objects are compared
  by reference. The model therefore removes the entry at the scanned position.
- The model follows the code in two details that are easy to misread. First, the scan windows
  are the first 30 (strict) or 20 (flex) entries of a bucket, and entries already used are
  skipped inside that window rather than excluded before it is taken. So a bucket whose first
  30 entries are all used counts as yielding nothing. Second, energy, valence, danceability,
  acousticness and speechiness are copied without clamping.

## Model

| member | source | states |
|---|---|---|
| Features.Clamp01 | index.js:103 | result in [0, 1]; identity on [0, 1]; 0 below, 1 above |
| Features.Norm | index.js:104 | result in [0, 1]; the linear rescale (x-lo)/(hi-lo) inside [lo, hi]; 0 at or below lo, 1 at or above hi |
| Features.NormMonotone | index.js:104 | rescaling preserves order: x <= y implies Norm(x) <= Norm(y) |
| Features.Vectorize | index.js:171-183 | tempo, loudness and duration in [0, 1]; each attribute present in the record is copied unchanged and each missing one (or all, without a record) takes its own default: 0.5 for energy, valence, danceability and acousticness, 0.33 for speechiness, 0.5 for tempo, 0.6 for loudness; a present tempo is `Norm` over [60, 180], a present loudness `Norm` over [-30, 0]; duration is `Norm` of the seconds over [120, 420], 0.2 without a duration, and a 2-7 minute duration is rescaled linearly |
| Features.TargetAt | index.js:106-121 | steady is (0.6, 0.6); build and cooldown targets lie in [0, 1] for t in [0, 1]; the wave target lies in [0, 1] whenever the sine is in [-1, 1] |
| Features.BuildRises | index.js:109-111 | the build target's energy and valence never fall as t grows |
| Features.CooldownFalls | index.js:112-114 | the cooldown target's energy and valence never rise as t grows |
| Features.WavePeriodic | index.js:115-118 | the wave target depends on t only through sine(t): two positions with the same sine value get the same target |
| Features.Distance | index.js:185-204 | non-negative; zero exactly when the six weighted features agree |
| Features.DistanceSymmetric | index.js:185-204 | distance(a, b) == distance(b, a) |
| Features.TargetPenalty | index.js:206-210 | non-negative; zero exactly when energy and valence hit the curve target |
| Candidates.TrackKey | index.js:123-125 | null exactly for a track without id; otherwise the non-empty "spotify:track:" + id |
| Candidates.ArtistId | index.js:167-169 | the id of the track's first artist, or the empty string when it has no artist |
| Candidates.TrackKeyInjective | index.js:123-125 | two tracks with the same non-null URI have the same id |
| Candidates.Flattened | index.js:218-229 | every entry's playlist index is a valid playlist index |
| Candidates.Flatten | index.js:218-229 | the nested loop produces the playlists' entries, playlist after playlist, in order |
| Candidates.FirstOccurrences | index.js:231-239 | no longer than the input; every kept entry has a URI; kept URIs pairwise distinct; kept URIs are exactly the input's non-null URIs |
| Candidates.DedupIsSubsequence | index.js:231-239 | the filter keeps entries in their original relative order |
| Candidates.DedupKeepsFirst | index.js:231-239 | the first entry carrying each non-null URI is kept |
| Candidates.DedupKeepsOnlyFirst | index.js:231-239 | every kept entry is the first occurrence of its URI |
| Candidates.Dedup | index.js:231-239 | the filter with its `seen` set keeps exactly the first occurrences |
| Candidates.Truncate | index.js:241-244 | the result is the prefix of length min(length, 5 × maxTracks) |
| Candidates.Vectorized | index.js:250-255 | one candidate per entry, same entry, duration feature in [0, 1] |
| Candidates.AttachVectors | index.js:250-255 | the precompute loop attaches each entry's vector, in order |
| Candidates.OfSource | index.js:257-259 | a bucket holds only its playlist's candidates and is no longer than the pool |
| Candidates.Bucketize | index.js:257-259 | one bucket per playlist; bucket b is playlist b's candidates in pool order; together the buckets hold exactly the pool (as a multiset) |
| Candidates.ShuffleDown | index.js:263-268 | Fisher-Yates over the first n positions (position n - 1 down to 1, each swapped with its draw) keeps the length |
| Candidates.ShuffleDownPermutes | index.js:263-268 | the Fisher-Yates swaps only reorder: same multiset |
| Candidates.Shuffle | index.js:263-268 | the in-place loop leaves the array equal to the Fisher-Yates result of the given draws, a permutation of the old contents |
| Scoring.CurveTime | index.js:307 | t in [0, 1] for every step of the run; 0 when maxTracks <= 1; 1 at the last step |
| Scoring.FairnessPenalty | index.js:275-282 | non-negative; positive exactly in flex mode when the playlist's count exceeds (step + 1) / n |
| Scoring.RecentPlaylistPenalty | index.js:284-289 | 0 or 0.25; 0.25 exactly when the previous pick came from the same playlist |
| Scoring.ArtistPenalty | index.js:291-296 | 0 or 0.35; 0.35 exactly when the option is on and the previous pick has the same non-empty artist id |
| Scoring.DurationJumpPenalty | index.js:298-304 | non-negative; 0 when the option is off or nothing is selected; with the option on and a previous pick, 0 exactly when the two durations are equal; at most 0.25 for normalised durations |
| Scoring.Score | index.js:306-328 | at least the curve-target penalty (itself non-negative), and at least the transition distance from the previous pick |
| Scoring.StrictScoreIgnoresCounts | index.js:275-276 | in strict mode the per-playlist counters do not change any score |
| Sequencing.CountsMatchSelection | index.js:271-273 | under the run invariant the counters add up to the number of selected tracks |
| Sequencing.PickPreservesInv | index.js:349-355 | picking an unused entry keeps the run invariant (single-source buckets, counters = tally, used = selected URIs, no URI twice) and moves exactly that candidate out of the buckets |
| Sequencing.BucketBestUnique | index.js:337-345 | the strict choice (first strictly minimal score in the window) is unique |
| Sequencing.GlobalBestUnique | index.js:366-381 | the flex choice (lowest score, ties to the lower bucket, then the lower position) is unique |
| Sequencing.GlobalBestIsBucketBest | index.js:366-381 | the flex choice is also the strict choice within its own bucket's window |
| Sequencing.ProbeCovers | index.js:401-411 | the n strict probes (step % n + u) % n visit every bucket |
| Sequencing.ScanBucket | index.js:330-347 | returns nothing exactly when no entry of the 30-entry window is unused; otherwise the first minimal-score unused entry |
| Sequencing.ScanWindow | index.js:366-381 | scanning one bucket's 20-entry window carries the best-so-far from the earlier buckets to this one |
| Sequencing.ScanGlobal | index.js:360-383 | returns nothing exactly when no bucket has an unused entry in its window; otherwise the global best with the source's tie-break |
| Sequencing.Sequencer.constructor | index.js:271-273 | empty selection, empty used set, zero counters, the given buckets; the invariant holds |
| Sequencing.Sequencer.Take | index.js:349-355 | the new state is `Pick` of the old one; the selection grows by the candidate; the buckets lose exactly it |
| Sequencing.Sequencer.PickFromBucket | index.js:330-358 | null exactly when the window has nothing unused, and then nothing changes; otherwise the strict best is picked and the state becomes `Pick` of the old one |
| Sequencing.Sequencer.PickGlobal | index.js:360-394 | null exactly when no window has anything unused, and then nothing changes; otherwise the global best is picked and the state becomes `Pick` of the old one |
| Sequencing.Sequencer.StrictStep | index.js:399-411 | null exactly when every bucket is exhausted; otherwise the pick comes from the first probe, in round-robin order from step % n, whose window yields one, and it is that bucket's strict best |
| Sequencing.ChoiceIsEligible | index.js:330-383 | the entry either policy chooses is unused and inside its bucket's window |
| Sequencing.ChoiceUnique | index.js:396-415 | the active policy's choice is unique: strict takes the first round-robin probe whose window yields an entry, then that bucket's first minimal entry; flex takes the global best |
| Sequencing.StepDeterministic | index.js:396-415 | a step from a given state has exactly one outcome: one pick and one next state |
| Sequencing.StepKeepsPool | index.js:349-355 | a step moves exactly the picked candidate out of the buckets |
| Sequencing.RunKeepsPool | index.js:396-418 | over a whole run, the remaining buckets plus the picks are the initial buckets (as multisets) |
| Sequencing.RunsAgree | index.js:396-418 | two runs from the same state agree on their common steps, states and picks alike |
| Sequencing.ShorterRunStops | index.js:396-418 | a run cannot stop at a step where another run from the same state still picks |
| Sequencing.RunDeterministic | index.js:396-418 | the run from a state is unique: the same picks through the same states |
| Sequencing.Sequencer.Step | index.js:397-415 | a pick is `IsStep`: the active policy's choice (strict: first yielding round-robin probe and its first minimal unused entry; flex: global best with the tie-break), and the new state is `Pick` of the old one; no pick leaves the state unchanged with every window exhausted |
| Sequencing.Sequencer.Run | index.js:396-418 | the returned history makes the picks an `IsRun` from the starting state: step s takes state s to state s + 1 by the policy's choice, at most maxTracks steps, stopping early only when every window is exhausted; counters sum to the number of picks; no URI picked twice; picks plus remaining buckets are the initial buckets |
| Pipeline.PreparedShape | index.js:218-244 | at most 5 × maxTracks prepared candidates, each from an existing playlist |
| Pipeline.ShuffledBucket | index.js:257-268 | bucket b is playlist b's prepared candidates in pool order, Fisher-Yates shuffled with its draws; a permutation of them |
| Pipeline.ShuffledBuckets | index.js:257-268 | one `ShuffledBucket` per playlist, each a permutation of its playlist's prepared candidates |
| Pipeline.ShuffledAsSpecified | index.js:257-268 | bucketing the pool and then shuffling each bucket with its draws gives exactly `ShuffledBuckets` |
| Pipeline.Prepare | index.js:218-268 | the buckets are exactly `ShuffledBuckets` of the prepared candidates and the given draws; one bucket per playlist holding a permutation of that playlist's prepared candidates; all buckets together hold exactly the prepared candidates |
| Pipeline.ShuffledCopy | index.js:263-268 | one bucket shuffled through an array is the Fisher-Yates result and a permutation |
| Pipeline.ShuffleAll | index.js:263-268 | bucket b becomes the Fisher-Yates result of bucket b with draws b, so a permutation of itself with single-source entries |
| Pipeline.PoolOfPermuted | index.js:263-268 | reordering within buckets leaves the multiset of all candidates unchanged |
| Pipeline.OrderedUris | index.js:420 | no longer than the selection; holds exactly the selection's non-null URIs |
| Pipeline.OrderedUrisSingle | index.js:420 | one pick yields its URI when it has one and nothing otherwise |
| Pipeline.OrderedUrisConcat | index.js:420 | the URIs of two selections one after the other are the URIs of the first followed by those of the second: pick order is kept |
| Pipeline.OrderedUrisDistinct | index.js:420 | a selection without repeated URIs yields no repeated URI |
| Pipeline.DrawnFromPrepared | index.js:396-420 | a selection drawn out of the prepared pool is no longer than it and carries only its URIs |
| Pipeline.Mix | index.js:212-420 | the picks are the run (`IsRun`, unique by `RunDeterministic`) from the initial state: the shuffled buckets, nothing used, zero counters; the URIs are `OrderedUris` of the picks, in pick order; at most maxTracks URIs, at most one per prepared candidate, pairwise distinct, each the URI of a prepared candidate |

## Left out

- HTTP handling, OAuth and sessions, request validation, and the playlist creation and upload
  after line 420 are not part of this model. `Prepare` and `Mix` require at least one playlist,
  which the request validation guarantees before the engine runs.
- Fetching is not modelled: the paged track fetch (lines 138-150), the batched audio-feature
  fetch (lines 152-165) and the id list of line 247. The fetched track lists and the feature
  map are inputs. The fetch drops tracks without id; the model still accepts them and
  handles their null URI as the engine does.
- `c.af` (line 253) is stored but never read by the engine, so candidates do not carry it.
- Math.sin and Math.random are parameters (`Config.sine`, the per-bucket draws), as described
  above. `Prepare` requires valid draws for 5 × maxTracks positions of every bucket, the most
  a bucket can hold.
- Floating point, NaN and rounding are not modelled; scores are exact reals.
- `maxTracks` is a natural number; the source coerces it from the request body.
- Features.WavePeriodic: the wave target's period of one run comes from the period of
  Math.sin, which the model takes as a parameter; the lemma states only that the target
  depends on t through sine(t).
- Features.TargetAt: the wave range needs `sine(t)` in [-1, 1], which the model assumes of the
  given function rather than proves.
- Sequencing.Sequencer.Run: the fairness behaviour of flex mode (counts staying near the fair
  share) is a tendency of the scores, not a guarantee of the code. The model proves what the
  penalty computes, not a balance bound.
