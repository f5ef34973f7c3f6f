/**
 * Screen classification from one frame's detections: a fixed chain of
 * rules over per-class confidence counts, one chain for the URA scenario
 * and one for the Unity Cup.
 */
module Screen {
  import opened Detections

  datatype ScreenName =
    | Event | Inspiration | Raceday | UnityCupRaceday | Training | LobbySummer | Lobby
    | FinalScreen | ClawMachine | EventStale | RaceLobby | KashimotoTeam | Unknown

  /** The keyword thresholds of both classifiers. */
  datatype Thresholds = Thresholds(lobbyConf: real, requireInfirmary: bool, trainingConf: real,
                                   eventConf: real, raceConf: real)

  const Defaults := Thresholds(0.70, true, 0.50, 0.60, 0.80)

  /** The Unity Cup primary and relaxed confidences from the settings (0.0 when unset). */
  datatype UnityConfs = UnityConfs(raceDayConf: real, raceDayRelaxedConf: real, goldenConf: real, goldenRelaxedConf: real)

  const UnityDefaults := UnityConfs(0.61, 0.35, 0.61, 0.35)

  /** `_count_conf`. */
  function CountConf(dets: seq<Det>, name: string, threshold: real): (n: nat)
    ensures n <= |dets|
  {
    if |dets| == 0 then 0
    else CountConf(dets[..|dets| - 1], name, threshold) +
         (if dets[|dets| - 1].name == name && dets[|dets| - 1].conf >= threshold then 1 else 0)
  }

  /** `_any_conf`. */
  predicate AnyConf(dets: seq<Det>, name: string, threshold: real)
  {
    exists i :: 0 <= i < |dets| && dets[i].name == name && dets[i].conf >= threshold
  }

  /** A class is present exactly when it has a positive count. */
  lemma {:induction false} AnyConfIffCount(dets: seq<Det>, name: string, threshold: real)
    ensures AnyConf(dets, name, threshold) <==> CountConf(dets, name, threshold) > 0
  {
    if |dets| > 0 {
      var init := dets[..|dets| - 1];
      AnyConfIffCount(init, name, threshold);
      if AnyConf(init, name, threshold) {
        var i :| 0 <= i < |init| && init[i].name == name && init[i].conf >= threshold;
        assert dets[i] == init[i];
      }
      if AnyConf(dets, name, threshold) && !(dets[|dets| - 1].name == name && dets[|dets| - 1].conf >= threshold) {
        var i :| 0 <= i < |dets| && dets[i].name == name && dets[i].conf >= threshold;
        assert init[i] == dets[i];
      }
    }
  }

  /** `classify_screen_ura` with the default class names. */
  function ClassifyUra(dets: seq<Det>, th: Thresholds): (r: ScreenName)
    ensures r != KashimotoTeam && r != UnityCupRaceday
  {
    var nEvent := CountConf(dets, "event_choice", th.eventConf);
    var nTrain := CountConf(dets, "training_button", th.trainingConf);
    var tazuna := AnyConf(dets, "lobby_tazuna", th.lobbyConf);
    var infirmary := AnyConf(dets, "lobby_infirmary", th.lobbyConf);
    var rest := AnyConf(dets, "lobby_rest", th.lobbyConf);
    var restSummer := AnyConf(dets, "lobby_rest_summer", th.lobbyConf);
    var recreation := AnyConf(dets, "lobby_recreation", th.lobbyConf);
    var raceDay := AnyConf(dets, "race_race_day", th.raceConf);
    var inspiration := AnyConf(dets, "event_inspiration", th.raceConf);
    var skills := AnyConf(dets, "lobby_skills", th.lobbyConf);
    var afterNext := AnyConf(dets, "race_after_next", 0.5);
    var clawAction := AnyConf(dets, "button_claw_action", th.lobbyConf);
    var claw := AnyConf(dets, "claw", th.lobbyConf);
    var change := AnyConf(dets, "button_change", th.lobbyConf);
    var badge := AnyConf(dets, "race_badge", th.lobbyConf);
    if nEvent >= 2 then Event
    else if inspiration then Inspiration
    else if tazuna && raceDay then Raceday
    else if nTrain == 5 then Training
    else if tazuna && restSummer && !rest && !recreation then LobbySummer
    else if tazuna && (infirmary || !th.requireInfirmary) && skills then Lobby
    else if (|dets| == 2 && skills && afterNext) || (|dets| <= 2 && skills) then FinalScreen
    else if clawAction && claw then ClawMachine
    else if nEvent == 1 then EventStale
    else if change && badge then RaceLobby
    else Unknown
  }

  /**
   * What the URA verdicts require of the frame: the full condition for
   * `Event`, and part of what the frame must show for `Training`,
   * `LobbySummer`, `Lobby`, `EventStale` and `Unknown`; `UraEventStale`
   * gives the full condition for `EventStale`.
   */
  lemma UraRules(dets: seq<Det>, th: Thresholds)
    ensures var r := ClassifyUra(dets, th);
            var nEvent := CountConf(dets, "event_choice", th.eventConf);
            (r == Event <==> nEvent >= 2) &&
            (r == Training ==> CountConf(dets, "training_button", th.trainingConf) == 5) &&
            (r == LobbySummer ==> AnyConf(dets, "lobby_tazuna", th.lobbyConf) && AnyConf(dets, "lobby_rest_summer", th.lobbyConf) &&
                                  !AnyConf(dets, "lobby_rest", th.lobbyConf) && !AnyConf(dets, "lobby_recreation", th.lobbyConf)) &&
            (r == Lobby ==> AnyConf(dets, "lobby_tazuna", th.lobbyConf) && AnyConf(dets, "lobby_skills", th.lobbyConf) &&
                            (AnyConf(dets, "lobby_infirmary", th.lobbyConf) || !th.requireInfirmary)) &&
            (r == EventStale ==> nEvent == 1 && CountConf(dets, "training_button", th.trainingConf) != 5 &&
                                 !AnyConf(dets, "event_inspiration", th.raceConf)) &&
            (r == Unknown ==> nEvent == 0 && CountConf(dets, "training_button", th.trainingConf) != 5)
  {
  }

  /** A lone event choice is stale exactly when no earlier rule of the URA classifier fires. */
  lemma UraEventStale(dets: seq<Det>, th: Thresholds)
    ensures var tazuna := AnyConf(dets, "lobby_tazuna", th.lobbyConf);
            var skills := AnyConf(dets, "lobby_skills", th.lobbyConf);
            ClassifyUra(dets, th) == EventStale <==>
              CountConf(dets, "event_choice", th.eventConf) == 1 &&
              !AnyConf(dets, "event_inspiration", th.raceConf) &&
              !(tazuna && AnyConf(dets, "race_race_day", th.raceConf)) &&
              CountConf(dets, "training_button", th.trainingConf) != 5 &&
              !(tazuna && AnyConf(dets, "lobby_rest_summer", th.lobbyConf) &&
                !AnyConf(dets, "lobby_rest", th.lobbyConf) && !AnyConf(dets, "lobby_recreation", th.lobbyConf)) &&
              !(tazuna && skills && (AnyConf(dets, "lobby_infirmary", th.lobbyConf) || !th.requireInfirmary)) &&
              !(|dets| <= 2 && skills) &&
              !(AnyConf(dets, "button_claw_action", th.lobbyConf) && AnyConf(dets, "claw", th.lobbyConf))
  {
  }

  /** `_apply_relaxed`: `support` is whether a white or green button is present. */
  predicate ApplyRelaxed(cands: seq<Det>, primary: real, relaxed: real, requireSupport: bool, support: bool)
  {
    if |cands| == 0 then false
    else if exists i :: 0 <= i < |cands| && cands[i].conf >= primary then true
    else if !(relaxed != 0.0 && relaxed < primary) then false
    else if !(exists i :: 0 <= i < |cands| && cands[i].conf >= relaxed) then false
    else !requireSupport || support
  }

  /**
   * The relaxed gate holds when some candidate reaches the primary
   * confidence, and otherwise only when a set relaxed threshold lies
   * below the primary one, some candidate reaches it, and the support
   * button is there when it is required.
   */
  lemma ApplyRelaxedIff(cands: seq<Det>, primary: real, relaxed: real, requireSupport: bool, support: bool)
    ensures ApplyRelaxed(cands, primary, relaxed, requireSupport, support) <==>
            (exists i :: 0 <= i < |cands| && cands[i].conf >= primary) ||
            (relaxed != 0.0 && relaxed < primary &&
             (exists i :: 0 <= i < |cands| && cands[i].conf >= relaxed) &&
             (!requireSupport || support))
  {
  }

  /** `Settings.X or race_conf`: an unset (zero) primary falls back to the race confidence. */
  function OrElse(x: real, fallback: real): real
  {
    if x != 0.0 then x else fallback
  }

  /** `classify_screen_unity_cup` with the default class names. */
  function ClassifyUnityCup(dets: seq<Det>, th: Thresholds, uc: UnityConfs): (r: ScreenName)
  {
    var nEvent := CountConf(dets, "event_choice", th.eventConf);
    var nTrain := CountConf(dets, "training_button", th.trainingConf);
    var tazuna := AnyConf(dets, "lobby_tazuna", th.lobbyConf);
    var infirmary := AnyConf(dets, "lobby_infirmary", th.lobbyConf);
    var rest := AnyConf(dets, "lobby_rest", th.lobbyConf);
    var restSummer := AnyConf(dets, "lobby_rest_summer", th.lobbyConf);
    var recreation := AnyConf(dets, "lobby_recreation", th.lobbyConf);
    var white := AnyConf(dets, "button_white", th.lobbyConf);
    var green := AnyConf(dets, "button_green", th.lobbyConf);
    var pink := AnyConf(dets, "button_pink", th.lobbyConf);
    var change := AnyConf(dets, "button_change", th.lobbyConf);
    var badge := AnyConf(dets, "race_badge", th.lobbyConf);
    var raceDay := ApplyRelaxed(Named(dets, "race_race_day"), OrElse(uc.raceDayConf, th.raceConf), uc.raceDayRelaxedConf, true, white || green);
    var golden := ApplyRelaxed(Named(dets, "button_golden"), OrElse(uc.goldenConf, th.raceConf), uc.goldenRelaxedConf, false, white || green);
    var skills := AnyConf(dets, "lobby_skills", th.lobbyConf);
    var clawAction := AnyConf(dets, "button_claw_action", th.lobbyConf);
    var claw := AnyConf(dets, "claw", th.lobbyConf);
    if nEvent >= 2 then Event
    else if golden then (if white then KashimotoTeam else Inspiration)
    else if raceDay then (if tazuna then Raceday else UnityCupRaceday)
    else if nTrain == 5 then Training
    else if tazuna && restSummer && !rest && !recreation then LobbySummer
    else if tazuna && (infirmary || !th.requireInfirmary) && skills then Lobby
    else if |dets| <= 3 && skills && pink then FinalScreen
    else if clawAction && claw then ClawMachine
    else if nEvent == 1 then EventStale
    else if change && badge then RaceLobby
    else Unknown
  }

  /** The Unity Cup's golden and race-day branches. */
  lemma UnityCupRules(dets: seq<Det>, th: Thresholds, uc: UnityConfs)
    ensures var r := ClassifyUnityCup(dets, th, uc);
            var nEvent := CountConf(dets, "event_choice", th.eventConf);
            var white := AnyConf(dets, "button_white", th.lobbyConf);
            var green := AnyConf(dets, "button_green", th.lobbyConf);
            var golden := ApplyRelaxed(Named(dets, "button_golden"), OrElse(uc.goldenConf, th.raceConf), uc.goldenRelaxedConf, false, white || green);
            var raceDay := ApplyRelaxed(Named(dets, "race_race_day"), OrElse(uc.raceDayConf, th.raceConf), uc.raceDayRelaxedConf, true, white || green);
            (r == Event <==> nEvent >= 2) &&
            (nEvent < 2 && golden ==> r == (if white then KashimotoTeam else Inspiration)) &&
            (nEvent < 2 && !golden && raceDay ==> r == (if AnyConf(dets, "lobby_tazuna", th.lobbyConf) then Raceday else UnityCupRaceday)) &&
            (r == EventStale ==> nEvent == 1 && !golden && !raceDay) &&
            (r == Unknown ==> nEvent == 0 && !golden && !raceDay)
  {
  }

  /** A lone golden button above the relaxed threshold is an inspiration screen. */
  lemma GoldenRelaxedExample()
    ensures ClassifyUnityCup([Det(0, "button_golden", 0.5, 0.0, 0.0, 10.0, 10.0)], Defaults,
                             UnityConfs(0.61, 0.35, 0.9, 0.45)) == Inspiration
  {
    var dets := [Det(0, "button_golden", 0.5, 0.0, 0.0, 10.0, 10.0)];
    assert dets[0].conf >= 0.45;
    assert Named(dets, "button_golden") == dets;
    assert CountConf(dets, "event_choice", 0.60) == 0;
    assert !AnyConf(dets, "button_white", 0.70);
  }

  /** A race-day badge above the relaxed threshold next to a white button, without Tazuna, is the Unity Cup race day. */
  lemma RaceDayRelaxedExample()
    ensures var dets := [Det(0, "race_race_day", 0.55, 0.0, 0.0, 10.0, 10.0), Det(1, "button_white", 0.7, 0.0, 0.0, 10.0, 10.0)];
            ClassifyUnityCup(dets, Defaults, UnityConfs(0.85, 0.5, 0.61, 0.35)) == UnityCupRaceday
  {
    var dets := [Det(0, "race_race_day", 0.55, 0.0, 0.0, 10.0, 10.0), Det(1, "button_white", 0.7, 0.0, 0.0, 10.0, 10.0)];
    assert dets[..1] == [dets[0]];
    assert CountConf(dets, "event_choice", 0.60) == 0;
    assert AnyConf(dets, "button_white", 0.70) by { assert dets[1].name == "button_white"; }
    assert !AnyConf(dets, "lobby_tazuna", 0.70);
    assert Named(dets, "button_golden") == [] by {
      assert Named(dets, "button_golden") == Sorting.Filter(dets, (d: Det) => d.name == "button_golden");
    }
    assert Named(dets, "race_race_day") == [dets[0]] by {
      assert Named(dets, "race_race_day") == Sorting.Filter(dets, (d: Det) => d.name == "race_race_day");
    }
  }
}
