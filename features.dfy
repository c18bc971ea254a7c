/**
  The feature vectoriser and the curve profile of the mix engine: how one track and its
  (possibly missing) audio-feature record become a comparable vector, which energy/valence
  target the mix aims at a given point of its length, and the two distances built on them.
*/
module Features {
  import opened Util

  /** `Math.max(0, Math.min(1, x))`. */
  function Clamp01(x: real): (r: real)
    ensures 0.0 <= r <= 1.0
    ensures 0.0 <= x <= 1.0 ==> r == x
    ensures x < 0.0 ==> r == 0.0
    ensures x > 1.0 ==> r == 1.0
  {
    RMax(0.0, RMin(1.0, x))
  }

  /** Linear rescaling of [lo, hi] onto [0, 1], clamped outside that range. */
  function Norm(x: real, lo: real, hi: real): (r: real)
    requires lo < hi
    ensures 0.0 <= r <= 1.0
    ensures lo <= x <= hi ==> r == (x - lo) / (hi - lo)
    ensures x <= lo ==> r == 0.0
    ensures x >= hi ==> r == 1.0
  {
    RatioBounds(x - lo, hi - lo);
    Clamp01((x - lo) / (hi - lo))
  }

  lemma RatioBounds(num: real, den: real)
    requires den > 0.0
    ensures 0.0 <= num ==> 0.0 <= num / den
    ensures num <= den ==> num / den <= 1.0
    ensures num <= 0.0 ==> num / den <= 0.0
    ensures num >= den ==> num / den >= 1.0
  {
  }

  lemma NormMonotone(x: real, y: real, lo: real, hi: real)
    requires lo < hi && x <= y
    ensures Norm(x, lo, hi) <= Norm(y, lo, hi)
  {
    var d := hi - lo;
    RatioBounds(y - x, d);
    assert (y - lo) / d - (x - lo) / d == (y - x) / d;
  }

  /** One track as the music service returns it; "" stands for a missing (falsy) id. */
  datatype Track = Track(id: string, artistIds: seq<string>, durationMs: Option<real>)

  /** One audio-feature record; every attribute may be missing. */
  datatype AudioFeatures = AudioFeatures(
    energy: Option<real>, valence: Option<real>, danceability: Option<real>,
    tempo: Option<real>, loudness: Option<real>,
    acousticness: Option<real>, speechiness: Option<real>)

  datatype FeatureVector = FeatureVector(
    energy: real, valence: real, danceability: real,
    tempo: real, loudness: real, duration: real,
    acousticness: real, speechiness: real)

  /** `af?.field ?? default`: the attribute when the record and the attribute are present. */
  function Attr(af: Option<AudioFeatures>, get: AudioFeatures -> Option<real>, default: real): real
  {
    if af.Some? then OrElse(get(af.value), default) else default
  }

  /** `featureVector(af, track)`. */
  function Vectorize(af: Option<AudioFeatures>, track: Track): (v: FeatureVector)
    ensures 0.0 <= v.tempo <= 1.0 && 0.0 <= v.loudness <= 1.0 && 0.0 <= v.duration <= 1.0
    ensures v.energy == (if af.Some? && af.value.energy.Some? then af.value.energy.value else 0.5)
    ensures v.valence == (if af.Some? && af.value.valence.Some? then af.value.valence.value else 0.5)
    ensures v.danceability == (if af.Some? && af.value.danceability.Some? then af.value.danceability.value else 0.5)
    ensures v.acousticness == (if af.Some? && af.value.acousticness.Some? then af.value.acousticness.value else 0.5)
    ensures v.speechiness == (if af.Some? && af.value.speechiness.Some? then af.value.speechiness.value else 0.33)
    ensures af.Some? && af.value.tempo.Some? ==> v.tempo == Norm(af.value.tempo.value, 60.0, 180.0)
    ensures (af.None? || af.value.tempo.None?) ==> v.tempo == 0.5
    ensures af.Some? && af.value.loudness.Some? ==> v.loudness == Norm(af.value.loudness.value, -30.0, 0.0)
    ensures (af.None? || af.value.loudness.None?) ==> v.loudness == 0.6
    ensures track.durationMs.Some? ==> v.duration == Norm(track.durationMs.value / 1000.0, 120.0, 420.0)
    ensures track.durationMs.None? ==> v.duration == 0.2
    ensures track.durationMs.Some? && 120000.0 <= track.durationMs.value <= 420000.0 ==>
              v.duration == (track.durationMs.value / 1000.0 - 120.0) / 300.0
  {
    FeatureVector(
      Attr(af, (a: AudioFeatures) => a.energy, 0.5),
      Attr(af, (a: AudioFeatures) => a.valence, 0.5),
      Attr(af, (a: AudioFeatures) => a.danceability, 0.5),
      Norm(Attr(af, (a: AudioFeatures) => a.tempo, 120.0), 60.0, 180.0),
      Norm(Attr(af, (a: AudioFeatures) => a.loudness, -12.0), -30.0, 0.0),
      Norm(OrElse(track.durationMs, 180000.0) / 1000.0, 120.0, 420.0),
      Attr(af, (a: AudioFeatures) => a.acousticness, 0.5),
      Attr(af, (a: AudioFeatures) => a.speechiness, 0.33))
  }

  /** The four named curve profiles; any other name behaves as Steady. */
  datatype Curve = Steady | Build | Cooldown | Wave

  datatype Target = Target(energy: real, valence: real)

  predicate InUnit(g: Target)
  {
    0.0 <= g.energy <= 1.0 && 0.0 <= g.valence <= 1.0
  }

  /**
    `targetAt(t)` for the chosen curve. `sine(t)` stands for `Math.sin(t * Math.PI * 2)`,
    which the model takes as a given function.
  */
  function TargetAt(curve: Curve, sine: real -> real, t: real): (g: Target)
    ensures curve == Steady ==> g == Target(0.6, 0.6)
    ensures (curve == Build || curve == Cooldown) && 0.0 <= t <= 1.0 ==> InUnit(g)
    ensures curve == Wave && -1.0 <= sine(t) <= 1.0 ==> InUnit(g)
  {
    match curve
    case Build => Target(0.25 + 0.65 * t, 0.30 + 0.55 * t)
    case Cooldown => Target(0.85 - 0.60 * t, 0.75 - 0.45 * t)
    case Wave =>
      var w := 0.5 + 0.5 * sine(t);
      Target(0.30 + 0.55 * w, 0.35 + 0.50 * w)
    case Steady => Target(0.60, 0.60)
  }

  lemma BuildRises(sine: real -> real, t1: real, t2: real)
    requires t1 <= t2
    ensures TargetAt(Build, sine, t1).energy <= TargetAt(Build, sine, t2).energy
    ensures TargetAt(Build, sine, t1).valence <= TargetAt(Build, sine, t2).valence
  {
  }

  lemma CooldownFalls(sine: real -> real, t1: real, t2: real)
    requires t1 <= t2
    ensures TargetAt(Cooldown, sine, t1).energy >= TargetAt(Cooldown, sine, t2).energy
    ensures TargetAt(Cooldown, sine, t1).valence >= TargetAt(Cooldown, sine, t2).valence
  {
  }

  /** The wave target depends on t only through the sine: equal sine values give equal targets. */
  lemma WavePeriodic(sine: real -> real, t1: real, t2: real)
    requires sine(t1) == sine(t2)
    ensures TargetAt(Wave, sine, t1) == TargetAt(Wave, sine, t2)
  {
  }

  /** `distance(a, b)`: the weighted L1 transition distance. */
  function Distance(a: FeatureVector, b: FeatureVector): (d: real)
    ensures d >= 0.0
    ensures d == 0.0 <==>
      a.energy == b.energy && a.valence == b.valence && a.tempo == b.tempo &&
      a.loudness == b.loudness && a.duration == b.duration && a.danceability == b.danceability
  {
    1.6 * Abs(a.energy - b.energy)
    + 1.2 * Abs(a.valence - b.valence)
    + 1.0 * Abs(a.tempo - b.tempo)
    + 0.8 * Abs(a.loudness - b.loudness)
    + 0.7 * Abs(a.duration - b.duration)
    + 0.6 * Abs(a.danceability - b.danceability)
  }

  lemma DistanceSymmetric(a: FeatureVector, b: FeatureVector)
    ensures Distance(a, b) == Distance(b, a)
  {
  }

  /** `targetPenalty(vec, t)`: how far the vector is from the curve target at t. */
  function TargetPenalty(vec: FeatureVector, curve: Curve, sine: real -> real, t: real): (p: real)
    ensures p >= 0.0
    ensures p == 0.0 <==> vec.energy == TargetAt(curve, sine, t).energy && vec.valence == TargetAt(curve, sine, t).valence
  {
    var g := TargetAt(curve, sine, t);
    0.9 * Abs(vec.energy - g.energy) + 0.7 * Abs(vec.valence - g.valence)
  }
}
