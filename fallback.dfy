/**
 * Unity Cup fallbacks: when the screen is unknown, look for the golden
 * button or the race-day card with confidence thresholds that relax as the
 * agent's patience grows.
 */
module Fallback {
  import opened Wrappers
  import opened Detections
  import opened Sorting

  const PatienceStage1 := 6
  const PatienceStage2 := 12
  const MinFallbackConf: real := 0.15

  function Max(a: real, b: real): real { if a >= b then a else b }

  /** `Settings.X or default`: an unset (zero) setting takes the default. */
  function OrDefault(x: real, d: real): real { if x != 0.0 then x else d }

  /** The shared shape of `_threshold_pair_golden` and `_threshold_pair_race`. */
  function ThresholdPair(conf: real, relaxedConf: real, floor: real, confDefault: real, relaxedDefault: real): (r: (real, real))
    requires floor >= 0.2
    ensures r.0 >= floor && MinFallbackConf <= r.1 < r.0
  {
    var primary := Max(floor, OrDefault(conf, confDefault));
    var relaxed := Max(MinFallbackConf, OrDefault(relaxedConf, relaxedDefault));
    if relaxed >= primary then (primary, Max(MinFallbackConf, primary - 0.05)) else (primary, relaxed)
  }

  /** `_threshold_pair_golden`: primary at least 0.2. */
  function GoldenPair(conf: real, relaxedConf: real): (r: (real, real))
    ensures r.0 >= 0.2 && MinFallbackConf <= r.1 < r.0
  {
    ThresholdPair(conf, relaxedConf, 0.2, 0.6, 0.35)
  }

  /** `_threshold_pair_race`: primary at least 0.25. */
  function RacePair(conf: real, relaxedConf: real): (r: (real, real))
    ensures r.0 >= 0.25 && MinFallbackConf <= r.1 < r.0
  {
    ThresholdPair(conf, relaxedConf, 0.25, 0.65, 0.4)
  }

  /** The thresholds before de-duplication: primary, then relaxed from stage 1, then relaxed − 0.1 from stage 2. */
  function RawThresholds(primary: real, relaxed: real, patience: int, force: bool): seq<real>
  {
    [primary] +
    (if force || patience >= PatienceStage1 then [relaxed] else []) +
    (if force || patience >= PatienceStage2 then [Max(MinFallbackConf, relaxed - 0.1)] else [])
  }

  /** Each threshold raised to the fallback floor. */
  function Floored(s: seq<real>): (r: seq<real>)
    ensures |r| == |s|
    ensures forall i :: 0 <= i < |s| ==> r[i] == Max(MinFallbackConf, s[i])
  {
    if |s| == 0 then [] else Floored(s[..|s| - 1]) + [Max(MinFallbackConf, s[|s| - 1])]
  }

  /** `_thresholds_for`. */
  method ThresholdsFor(primary: real, relaxed: real, patience: int, force: bool) returns (ordered: seq<real>)
    ensures ordered == Dedup(Floored(RawThresholds(primary, relaxed, patience, force)))
  {
    var thresholds := [primary];
    if force || patience >= PatienceStage1 {
      thresholds := thresholds + [relaxed];
    }
    if force || patience >= PatienceStage2 {
      thresholds := thresholds + [Max(MinFallbackConf, relaxed - 0.1)];
    }
    ordered := FloorDistinct(thresholds);
  }

  /** The loop of `_thresholds_for`: floor each threshold and keep the first of equal ones. */
  method FloorDistinct(thresholds: seq<real>) returns (ordered: seq<real>)
    ensures ordered == Dedup(Floored(thresholds))
  {
    var floored := Floored(thresholds);
    ordered := [];
    var seen: set<real> := {};
    for i := 0 to |thresholds|
      invariant ordered == Dedup(floored[..i])
      invariant forall x :: x in seen <==> x in ordered
    {
      assert floored[..i + 1][..i] == floored[..i];
      var thr := Max(MinFallbackConf, thresholds[i]);
      if thr in seen {
        continue;
      }
      seen := seen + {thr};
      ordered := ordered + [thr];
    }
    assert floored[..|thresholds|] == floored;
  }

  /**
   * The thresholds start with the floored primary, never go below the
   * floor, never repeat, and include the relaxed ones exactly from their
   * patience stage on.
   */
  lemma ThresholdsShape(primary: real, relaxed: real, patience: int, force: bool)
    ensures var t := Dedup(Floored(RawThresholds(primary, relaxed, patience, force)));
            |t| >= 1 && t[0] == Max(MinFallbackConf, primary) &&
            (forall i :: 0 <= i < |t| ==> t[i] >= MinFallbackConf) &&
            (forall i, j :: 0 <= i < j < |t| ==> t[i] != t[j]) &&
            (force || patience >= PatienceStage1 ==> Max(MinFallbackConf, relaxed) in t) &&
            (force || patience >= PatienceStage2 ==> Max(MinFallbackConf, relaxed - 0.1) in t) &&
            (!force && patience < PatienceStage1 ==> t == [Max(MinFallbackConf, primary)])
  {
    var raw := RawThresholds(primary, relaxed, patience, force);
    var f := Floored(raw);
    assert f[..1] == [Max(MinFallbackConf, primary)];
    DedupHead(f);
    var t := Dedup(f);
    forall i | 0 <= i < |t| ensures t[i] >= MinFallbackConf {
      assert t[i] in f;
    }
  }

  /** The first threshold at which `findBest` finds something, with that detection. */
  function FirstHit(dets: seq<Det>, name: string, thresholds: seq<real>,
                    findBest: (seq<Det>, string, real) -> Option<Det>): (r: (Option<Det>, Option<real>))
    ensures r.0.Some? <==> r.1.Some?
    ensures r.1.Some? ==> r.1.value in thresholds && r.0 == findBest(dets, name, r.1.value)
    ensures r.1.None? ==> forall i :: 0 <= i < |thresholds| ==> findBest(dets, name, thresholds[i]).None?
  {
    if |thresholds| == 0 then (None, None)
    else if findBest(dets, name, thresholds[0]).Some? then (findBest(dets, name, thresholds[0]), Some(thresholds[0]))
    else FirstHit(dets, name, thresholds[1..], findBest)
  }

  /** A hit at a threshold means every earlier threshold found nothing. */
  lemma {:induction false} FirstHitIsFirst(dets: seq<Det>, name: string, thresholds: seq<real>,
                                           findBest: (seq<Det>, string, real) -> Option<Det>, k: nat)
    requires k < |thresholds| && findBest(dets, name, thresholds[k]).Some?
    requires forall i :: 0 <= i < k ==> findBest(dets, name, thresholds[i]).None?
    ensures FirstHit(dets, name, thresholds, findBest) == (findBest(dets, name, thresholds[k]), Some(thresholds[k]))
  {
    if k > 0 {
      FirstHitIsFirst(dets, name, thresholds[1..], findBest, k - 1);
    }
  }

  /** `_find_adaptive_detection`; `findBest` is the detector lookup `find_best`. */
  method FindAdaptiveDetection(dets: seq<Det>, name: string, primary: real, relaxed: real, patience: int, force: bool,
                               findBest: (seq<Det>, string, real) -> Option<Det>)
    returns (detection: Option<Det>, threshold: Option<real>)
    ensures (detection, threshold) == FirstHit(dets, name, Dedup(Floored(RawThresholds(primary, relaxed, patience, force))), findBest)
  {
    var thresholds := ThresholdsFor(primary, relaxed, patience, force);
    for i := 0 to |thresholds|
      invariant FirstHit(dets, name, thresholds, findBest) == FirstHit(dets, name, thresholds[i..], findBest)
    {
      var candidate := findBest(dets, name, thresholds[i]);
      if candidate.Some? {
        return candidate, Some(thresholds[i]);
      }
      assert thresholds[i..][1..] == thresholds[i + 1..];
    }
    return None, None;
  }

  /** The Unity Cup agent's counters these fallbacks reset. */
  class Agent {
    var patience: int
    var clawTurn: int

    constructor (patience0: int, clawTurn0: int)
      ensures patience == patience0 && clawTurn == clawTurn0
    {
      patience := patience0;
      clawTurn := clawTurn0;
    }

    /** `maybe_click_golden` without the click itself: on a hit both counters reset. */
    method MaybeClickGolden(dets: seq<Det>, goldenConf: real, goldenRelaxedConf: real, force: bool,
                            findBest: (seq<Det>, string, real) -> Option<Det>) returns (clicked: bool)
      modifies this
      ensures var pair := GoldenPair(goldenConf, goldenRelaxedConf);
              clicked == FirstHit(dets, "button_golden", Dedup(Floored(RawThresholds(pair.0, pair.1, old(patience), force))), findBest).0.Some?
      ensures clicked ==> patience == 0 && clawTurn == 0
      ensures !clicked ==> patience == old(patience) && clawTurn == old(clawTurn)
    {
      var pair := GoldenPair(goldenConf, goldenRelaxedConf);
      var detection, threshold := FindAdaptiveDetection(dets, "button_golden", pair.0, pair.1, patience, force, findBest);
      if detection.None? || threshold.None? {
        return false;
      }
      patience := 0;
      clawTurn := 0;
      return true;
    }

    /** `maybe_handle_race_card` without the clicks: on a hit the patience resets. */
    method MaybeHandleRaceCard(dets: seq<Det>, raceConf: real, raceRelaxedConf: real, force: bool,
                               findBest: (seq<Det>, string, real) -> Option<Det>) returns (handled: bool)
      modifies this
      ensures var pair := RacePair(raceConf, raceRelaxedConf);
              handled == FirstHit(dets, "race_race_day", Dedup(Floored(RawThresholds(pair.0, pair.1, old(patience), force))), findBest).0.Some?
      ensures handled ==> patience == 0
      ensures !handled ==> patience == old(patience)
      ensures clawTurn == old(clawTurn)
    {
      var pair := RacePair(raceConf, raceRelaxedConf);
      var detection, threshold := FindAdaptiveDetection(dets, "race_race_day", pair.0, pair.1, patience, force, findBest);
      if detection.None? || threshold.None? {
        return false;
      }
      patience := 0;
      return true;
    }

    /** `handle_unknown_low_conf_targets`: the golden button first, then the race-day card, at the unforced thresholds. */
    method HandleUnknownLowConfTargets(dets: seq<Det>, goldenConf: real, goldenRelaxedConf: real, raceConf: real, raceRelaxedConf: real,
                                       findBest: (seq<Det>, string, real) -> Option<Det>) returns (handled: bool)
      modifies this
      ensures var g := GoldenPair(goldenConf, goldenRelaxedConf);
              var r := RacePair(raceConf, raceRelaxedConf);
              var golden := FirstHit(dets, "button_golden", Dedup(Floored(RawThresholds(g.0, g.1, old(patience), false))), findBest).0.Some?;
              var race := FirstHit(dets, "race_race_day", Dedup(Floored(RawThresholds(r.0, r.1, old(patience), false))), findBest).0.Some?;
              handled == (golden || race) &&
              (golden ==> clawTurn == 0) &&
              (!golden ==> clawTurn == old(clawTurn))
      ensures handled ==> patience == 0
      ensures !handled ==> patience == old(patience) && clawTurn == old(clawTurn)
    {
      handled := MaybeClickGolden(dets, goldenConf, goldenRelaxedConf, false, findBest);
      if handled {
        return;
      }
      handled := MaybeHandleRaceCard(dets, raceConf, raceRelaxedConf, false, findBest);
    }
  }
}
