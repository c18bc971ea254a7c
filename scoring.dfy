/**
  The scoring function: the configuration of one mix run and the non-negative transition cost
  of placing a candidate at a step, given what has been selected so far.
*/
module Scoring {
  import opened Util
  import opened Features
  import opened Candidates

  /** Any mode name other than "strict" runs the flex policy. */
  datatype Mode = Strict | Flex

  /**
    The options of one run. `sine` stands for `t => Math.sin(t * Math.PI * 2)`, used only by
    the wave curve.
  */
  datatype Config = Config(
    mode: Mode, curve: Curve, sine: real -> real,
    removeDuplicates: bool, avoidSameArtist: bool, preferSimilarDuration: bool,
    maxTracks: nat)

  /** The position of a step on the curve: `step / (maxTracks - 1)`, or 0 when maxTracks <= 1. */
  function CurveTime(maxTracks: nat, step: nat): (t: real)
    ensures 0.0 <= t
    ensures step < maxTracks ==> t <= 1.0
    ensures maxTracks <= 1 ==> t == 0.0
    ensures 1 < maxTracks && step == maxTracks - 1 ==> t == 1.0
  {
    if maxTracks <= 1 then 0.0
    else
      RatioBounds(step as real, (maxTracks - 1) as real);
      step as real / (maxTracks - 1) as real
  }

  /** `fairnessPenalty`: in flex mode, 0.12 per pick a playlist is ahead of its fair share. */
  function FairnessPenalty(mode: Mode, counts: seq<nat>, plIndex: nat, step: nat): (p: real)
    requires plIndex < |counts|
    ensures p >= 0.0
    ensures p > 0.0 <==> mode.Flex? && counts[plIndex] as real > (step + 1) as real / |counts| as real
  {
    if mode.Strict? then 0.0
    else
      var expected := (step + 1) as real / |counts| as real;
      var over := RMax(0.0, counts[plIndex] as real - expected);
      assert over > 0.0 <==> counts[plIndex] as real > expected;
      0.12 * over
  }

  /** `recentPlaylistPenalty`: 0.25 when the previous pick came from the same playlist. */
  function RecentPlaylistPenalty(selected: seq<Candidate>, plIndex: nat): (p: real)
    ensures p == 0.0 || p == 0.25
    ensures p > 0.0 <==> |selected| > 0 && selected[|selected| - 1].Source() == plIndex
  {
    if |selected| == 0 then 0.0
    else if selected[|selected| - 1].Source() == plIndex then 0.25
    else 0.0
  }

  /** `artistPenalty`: 0.35 when the previous pick has the same, known, first artist. */
  function ArtistPenalty(avoidSameArtist: bool, selected: seq<Candidate>, c: Candidate): (p: real)
    ensures p == 0.0 || p == 0.35
    ensures p > 0.0 <==>
      avoidSameArtist && |selected| > 0 &&
      selected[|selected| - 1].entry.artistId != "" &&
      selected[|selected| - 1].entry.artistId == c.entry.artistId
  {
    if !avoidSameArtist then 0.0
    else if |selected| == 0 then 0.0
    else
      var lastArtist := selected[|selected| - 1].entry.artistId;
      if lastArtist != "" && c.entry.artistId != "" && lastArtist == c.entry.artistId then 0.35 else 0.0
  }

  /** `durationJumpPenalty`: a quarter of the jump in normalised duration from the previous pick. */
  function DurationJumpPenalty(preferSimilarDuration: bool, selected: seq<Candidate>, vec: FeatureVector): (p: real)
    ensures p >= 0.0
    ensures !preferSimilarDuration || |selected| == 0 ==> p == 0.0
    ensures (|selected| > 0 && 0.0 <= vec.duration <= 1.0 &&
             0.0 <= selected[|selected| - 1].vec.duration <= 1.0) ==> p <= 0.25
    ensures preferSimilarDuration && |selected| > 0 ==>
      (p == 0.0 <==> vec.duration == selected[|selected| - 1].vec.duration)
  {
    if !preferSimilarDuration then 0.0
    else if |selected| == 0 then 0.0
    else
      var prev := selected[|selected| - 1].vec;
      0.25 * Abs(prev.duration - vec.duration)
  }

  /** `scoreCandidate(candidate, step)`: lower is better. */
  function Score(cfg: Config, selected: seq<Candidate>, counts: seq<nat>, c: Candidate, step: nat): (s: real)
    requires c.Source() < |counts|
    ensures s >= TargetPenalty(c.vec, cfg.curve, cfg.sine, CurveTime(cfg.maxTracks, step)) >= 0.0
    ensures |selected| > 0 ==> s >= Distance(selected[|selected| - 1].vec, c.vec)
  {
    var t := CurveTime(cfg.maxTracks, step);
    var transition :=
      if |selected| > 0 then Distance(selected[|selected| - 1].vec, c.vec)
      else 0.7 * TargetPenalty(c.vec, cfg.curve, cfg.sine, 0.0);
    transition
    + TargetPenalty(c.vec, cfg.curve, cfg.sine, t)
    + ArtistPenalty(cfg.avoidSameArtist, selected, c)
    + RecentPlaylistPenalty(selected, c.Source())
    + FairnessPenalty(cfg.mode, counts, c.Source(), step)
    + DurationJumpPenalty(cfg.preferSimilarDuration, selected, c.vec)
  }

  /** In strict mode the per-playlist counters do not enter the score. */
  lemma StrictScoreIgnoresCounts(cfg: Config, selected: seq<Candidate>, c1: seq<nat>, c2: seq<nat>,
                                 c: Candidate, step: nat)
    requires cfg.mode == Strict && c.Source() < |c1| && c.Source() < |c2|
    ensures Score(cfg, selected, c1, c, step) == Score(cfg, selected, c2, c, step)
  {
  }
}
