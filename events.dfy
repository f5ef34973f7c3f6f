/**
 * The event screen (core/actions/events.py): which detections make up the
 * screen, which option the preferences choose, how that choice is checked
 * against what is visible and against the energy cap, and what is clicked.
 *
 * OCR, the colour test for chain arrows, the portrait hash, the YOLO
 * re-capture and the team-name matcher are inputs of an `Observation`;
 * retrieval is the catalogue model of `retrieve_best`.
 */
module Events {
  import opened Wrappers
  import opened Strings
  import opened JsonValues
  import opened Sorting
  import opened Detections
  import Dicts
  import opened EventCatalog
  import opened EventRewards
  import EventPrefs

  // ---------------------------------------------------------------------
  // Helpers
  // ---------------------------------------------------------------------

  /** `max(0, min(v, hi))`. */
  function Clip(v: int, hi: int): (r: int)
    ensures r >= 0
    ensures hi >= 0 ==> r <= hi
    ensures 0 <= v <= hi ==> r == v
  {
    var m := if v < hi then v else hi;
    if m > 0 then m else 0
  }

  /**
   * `_clamp_box`: integer corners inside a `w` x `h` image, the far corner
   * never before the near one (one pixel further when there is room).
   */
  function ClampBox(box: (real, real, real, real), w: int, h: int): (r: (int, int, int, int))
    ensures w >= 1 ==> 0 <= r.0 <= r.2 <= w - 1
    ensures h >= 1 ==> 0 <= r.1 <= r.3 <= h - 1
    ensures w >= 1 && r.0 < w - 1 ==> r.0 < r.2
    ensures h >= 1 && r.1 < h - 1 ==> r.1 < r.3
    ensures 0 <= TruncReal(box.0) <= w - 1 ==> r.0 == TruncReal(box.0)
    ensures 0 <= TruncReal(box.1) <= h - 1 ==> r.1 == TruncReal(box.1)
    ensures r.0 < TruncReal(box.2) <= w - 1 ==> r.2 == TruncReal(box.2)
    ensures r.1 < TruncReal(box.3) <= h - 1 ==> r.3 == TruncReal(box.3)
  {
    var x1 := Clip(TruncReal(box.0), w - 1);
    var y1 := Clip(TruncReal(box.1), h - 1);
    var x2 := Clip(TruncReal(box.2), w - 1);
    var y2 := Clip(TruncReal(box.3), h - 1);
    var x2' := if x2 <= x1 then (if w - 1 < x1 + 1 then w - 1 else x1 + 1) else x2;
    var y2' := if y2 <= y1 then (if h - 1 < y1 + 1 then h - 1 else y1 + 1) else y2;
    (x1, y1, x2', y2')
  }

  function TopFirst(a: Det, b: Det): bool
  {
    a.y1 <= b.y1
  }

  /** `_sort_top_to_bottom`: a stable sort by the top edge. */
  function SortTopToBottom(dets: seq<Det>): (r: seq<Det>)
    ensures |r| == |dets| && multiset(r) == multiset(dets)
  {
    SortBy(dets, TopFirst)
  }

  /** The sorted detections are ordered by their top edge and are the same detections. */
  lemma SortTopToBottomProps(dets: seq<Det>)
    ensures SortedBy(SortTopToBottom(dets), TopFirst)
    ensures forall d :: d in SortTopToBottom(dets) <==> d in dets
  {
    assert TotalPreorder(TopFirst);
    SortBySorted(dets, TopFirst);
    var r := SortTopToBottom(dets);
    forall d ensures d in r <==> d in dets {
      assert d in r <==> d in multiset(r);
      assert d in dets <==> d in multiset(dets);
    }
  }

  function IsChain(d: Det): bool
  {
    d.name == "event_chain"
  }

  /**
   * `_count_chain_steps`: `None` without chain arrows; otherwise the number of
   * arrows that pass the colour test on the frame (`None` when none does).
   */
  function CountChainSteps(parsed: seq<Det>, isBlue: Option<Det -> bool>): (r: Option<nat>)
    ensures Filter(parsed, IsChain) == [] ==> r.None?
    ensures r.Some? ==> 1 <= r.value <= |Filter(parsed, IsChain)|
    ensures isBlue.None? ==> (r.None? <==> Filter(parsed, IsChain) == [])
    ensures isBlue.None? && r.Some? ==> r.value == |Filter(parsed, IsChain)|
  {
    var steps := Filter(parsed, IsChain);
    if steps == [] then None
    else
      var kept := if isBlue.Some? then Filter(steps, isBlue.value) else steps;
      if kept == [] then None else Some(|kept|)
  }

  /** The chain-step hint: the arrow count, or 1 when there is none but a portrait card is on screen. */
  function ChainStepHint(parsed: seq<Det>, isBlue: Det -> bool, card: Option<Det>): (r: Option<int>)
    ensures r.None? <==> card.None? && CountChainSteps(parsed, Some(isBlue)).None?
    ensures r.Some? ==> r.value >= 1
    ensures card.Some? && CountChainSteps(parsed, Some(isBlue)).None? ==> r == Some(1)
  {
    var steps := CountChainSteps(parsed, Some(isBlue));
    if steps.None? && card.Some? then Some(1)
    else if steps.Some? then Some(steps.value as int) else None
  }

  /** Index of the first detection of highest confidence. */
  function FirstMostConfident(ds: seq<Det>): (i: nat)
    requires ds != []
    ensures i < |ds|
    ensures forall k :: 0 <= k < |ds| ==> ds[k].conf <= ds[i].conf
    ensures forall k :: 0 <= k < i ==> ds[k].conf < ds[i].conf
    decreases |ds|
  {
    if |ds| == 1 then 0
    else
      var j := 1 + FirstMostConfident(ds[1..]);
      assert forall k :: 1 <= k < |ds| ==> ds[k] == ds[1..][k - 1];
      if ds[0].conf >= ds[j].conf then 0 else j
  }

  function IsCard(d: Det): bool
  {
    d.name == "event_card"
  }

  /**
   * `_pick_event_card`: the most confident `event_card`; on a tie the
   * earliest one, since the descending sort is stable.
   */
  function PickEventCard(parsed: seq<Det>): (r: Option<Det>)
    ensures r.None? <==> forall d :: d in parsed ==> !IsCard(d)
    ensures r.Some? ==> r.value in parsed && IsCard(r.value)
    ensures r.Some? ==> forall d :: d in parsed && IsCard(d) ==> d.conf <= r.value.conf
  {
    var cards := Filter(parsed, IsCard);
    if cards == [] then
      assert forall d :: d in parsed ==> !IsCard(d) by {
        forall d | d in parsed ensures !IsCard(d) {
          if IsCard(d) {
            var m :| 0 <= m < |parsed| && parsed[m] == d;
            FilterComplete(parsed, IsCard, m);
          }
        }
      }
      None
    else
      var i := FirstMostConfident(cards);
      FilterMember(parsed, IsCard, i);
      assert forall d :: d in parsed && IsCard(d) ==> d.conf <= cards[i].conf by {
        forall d | d in parsed && IsCard(d) ensures d.conf <= cards[i].conf {
          var m :| 0 <= m < |parsed| && parsed[m] == d;
          FilterComplete(parsed, IsCard, m);
        }
      }
      Some(cards[i])
  }

  /** `_choices`: the `event_choice` detections of at least `confMin`, in their original order. */
  function Choices(parsed: seq<Det>, confMin: real): (r: seq<Det>)
    ensures forall k :: 0 <= k < |r| ==> r[k].name == "event_choice" && r[k].conf >= confMin
    ensures forall d :: d in r ==> d in parsed
    ensures forall d :: d in parsed && d.name == "event_choice" && d.conf >= confMin ==> d in r
  {
    var keep := (d: Det) => d.name == "event_choice" && d.conf >= confMin;
    var r := Filter(parsed, keep);
    assert forall d :: d in r ==> d in parsed by {
      forall d | d in r ensures d in parsed {
        var k :| 0 <= k < |r| && r[k] == d;
        FilterMember(parsed, keep, k);
      }
    }
    assert forall d :: d in parsed && keep(d) ==> d in r by {
      forall d | d in parsed && keep(d) ensures d in r {
        var m :| 0 <= m < |parsed| && parsed[m] == d;
        FilterComplete(parsed, keep, m);
      }
    }
    r
  }

  // ---------------------------------------------------------------------
  // Rotation of the options, starting at the preferred one
  // ---------------------------------------------------------------------

  /** `[((pick - 1 + shift) % n) + 1 for shift in range(n)]`. */
  function Rotation(pick: int, n: nat): (order: seq<int>)
    ensures |order| == n
    ensures forall s :: 0 <= s < n ==> order[s] == (pick - 1 + s) % n + 1
  {
    seq(n, s requires 0 <= s < n => (pick - 1 + s) % n + 1)
  }

  /** A product of a positive count and a positive width is at least the width. */
  lemma AtLeastOnce(d: int, n: int)
    requires d >= 1 && n > 0
    ensures d * n >= n
  {
    var e := d - 1;
    assert d * n == e * n + n;
    assert e * n >= 0;
  }

  /** Euclidean division is unique. */
  lemma ModOf(a: int, n: int, q: int, r: int)
    requires n > 0 && a == q * n + r && 0 <= r < n
    ensures a % n == r
  {
    var q' := a / n;
    var r' := a % n;
    assert a == q' * n + r';
    if q' < q {
      assert (q - q') * n == q * n - q' * n;
      AtLeastOnce(q - q', n);
    } else if q' > q {
      assert (q' - q) * n == q' * n - q * n;
      AtLeastOnce(q' - q, n);
    }
  }

  /** The `s`-th entry of the rotation, counted from the start offset `(pick - 1) % n`. */
  lemma RotationAt(pick: int, n: nat, s: nat)
    requires n > 0 && s < n
    ensures var p0 := (pick - 1) % n;
            Rotation(pick, n)[s] == (if p0 + s < n then p0 + s else p0 + s - n) + 1
  {
    var p0 := (pick - 1) % n;
    var q := (pick - 1) / n;
    assert pick - 1 == q * n + p0;
    if p0 + s < n {
      ModOf(pick - 1 + s, n, q, p0 + s);
    } else {
      ModOf(pick - 1 + s, n, q + 1, p0 + s - n);
    }
  }

  /** The rotation lists each option 1..n exactly once and starts at `pick` when `pick` is one of them. */
  lemma RotationPermutation(pick: int, n: nat)
    requires n > 0
    ensures var order := Rotation(pick, n);
            (forall s :: 0 <= s < n ==> 1 <= order[s] <= n) &&
            (forall s, t :: 0 <= s < t < n ==> order[s] != order[t]) &&
            (forall v :: 1 <= v <= n ==> v in order) &&
            (1 <= pick <= n ==> order[0] == pick)
  {
    var order := Rotation(pick, n);
    var p0 := (pick - 1) % n;
    forall s | 0 <= s < n ensures 1 <= order[s] <= n {
      RotationAt(pick, n, s);
    }
    forall s, t | 0 <= s < t < n ensures order[s] != order[t] {
      RotationAt(pick, n, s);
      RotationAt(pick, n, t);
    }
    forall v | 1 <= v <= n ensures v in order {
      var s := if v - 1 >= p0 then v - 1 - p0 else v - 1 - p0 + n;
      RotationAt(pick, n, s);
      assert order[s] == v;
    }
    if 1 <= pick <= n {
      RotationAt(pick, n, 0);
      ModOf(pick - 1, n, 0, pick - 1);
    }
  }

  // ---------------------------------------------------------------------
  // Energy-overflow re-selection
  // ---------------------------------------------------------------------

  /** The outcomes of option `k`: `options.get(str(k), []) or []`. */
  function Outcomes(rec: EventRecord, k: int): Json
  {
    JList(Dicts.Lookup(rec.options, IntToString(k)).GetOr([]))
  }

  /** Support dates of PAL cards may overfill the cap by up to 10. */
  function PalOvercap(rec: EventRecord): (extra: int)
    ensures extra == 0 || extra == 10
  {
    if Lower(Strip(rec.typ)) == "support" && Upper(Strip(rec.attribute)) == "PAL" then 10 else 0
  }

  /** An option is safe when it gains no energy or stays within the limit. */
  predicate IsSafe(gain: nat, current: int, limit: int)
  {
    gain <= 0 || current + gain <= limit
  }

  /** The safe options among 1..n, ascending. */
  function SafeOptions(rec: EventRecord, n: nat, current: int, limit: int): (safe: seq<int>)
    ensures forall k :: k in safe <==> 1 <= k <= n && IsSafe(EnergyPeak(Outcomes(rec, k)), current, limit)
    ensures forall a, b :: 0 <= a < b < |safe| ==> safe[a] < safe[b]
  {
    UpToWhere(n, k => IsSafe(EnergyPeak(Outcomes(rec, k)), current, limit))
  }

  /** The numbers among 1..n that satisfy `p`, ascending. */
  function UpToWhere(n: nat, p: int -> bool): (r: seq<int>)
    ensures forall k :: k in r <==> 1 <= k <= n && p(k)
    ensures forall a, b :: 0 <= a < b < |r| ==> r[a] < r[b]
    decreases n
  {
    if n == 0 then []
    else
      var prev := UpToWhere(n - 1, p);
      assert forall a :: 0 <= a < |prev| ==> prev[a] in prev;
      if p(n) then prev + [n] else prev
  }

  /** The reward categories of options 1..n. */
  function CategoriesUpTo(rec: EventRecord, n: nat): (cats: map<int, set<string>>)
    ensures forall k :: k in cats <==> 1 <= k <= n
    ensures forall k :: k in cats ==> cats[k] == ExtractRewardCategories(Outcomes(rec, k))
  {
    Tabulate(n, k => ExtractRewardCategories(Outcomes(rec, k)))
  }

  /** The map from each of 1..n to its image under `f`. */
  function Tabulate<T>(n: nat, f: int -> T): (m: map<int, T>)
    ensures forall k :: k in m <==> 1 <= k <= n
    ensures forall k :: k in m ==> m[k] == f(k)
    decreases n
  {
    if n == 0 then map[] else Tabulate(n - 1, f)[n := f(n)]
  }

  /** The first option of `order` that is safe; `pick` when none is. */
  function FirstSafeOr(order: seq<int>, safe: seq<int>, pick: int): (c: int)
    ensures c == pick || c in safe
    ensures (exists k :: 0 <= k < |order| && order[k] in safe) ==> c in safe
  {
    var i := FirstSafe(order, set o | o in safe);
    if i < |order| then order[i] else pick
  }

  /**
   * The re-selection: an unsafe pick goes to `select_candidate_by_priority`;
   * without a selection, the first safe option in rotation order is taken.
   */
  function Choose(pick: int, order: seq<int>, safe: seq<int>, cats: map<int, set<string>>, priority: seq<string>): int
  {
    if pick !in safe then
      var sel := SelectCandidateByPriority(order, safe, cats, priority);
      if sel.Some? then sel.value.0 else FirstSafeOr(order, safe, pick)
    else FirstSafeOr(order, safe, pick)
  }

  /**
   * A safe pick is kept; an unsafe one becomes a safe option whenever there is
   * one; the result stays among the options.
   */
  lemma ChooseProps(pick: int, n: nat, safe: seq<int>, cats: map<int, set<string>>, priority: seq<string>)
    requires 1 <= pick <= n
    requires forall k :: k in safe ==> 1 <= k <= n
    ensures var c := Choose(pick, Rotation(pick, n), safe, cats, priority);
            1 <= c <= n &&
            (pick in safe ==> c == pick) &&
            (pick !in safe && safe != [] ==> c in safe) &&
            (safe == [] ==> c == pick)
  {
    var order := Rotation(pick, n);
    RotationPermutation(pick, n);
    if pick in safe {
      assert FirstSafe(order, set o | o in safe) == 0;
    } else if safe != [] {
      var v := safe[0];
      assert v in safe;
      assert 1 <= v <= n;
      assert v in order;
    }
  }

  /** `pick` after the energy check, for `n` options and the current energy. */
  function AdjustForEnergy(rec: EventRecord, pick: int, n: nat, current: int, cap: int, priority: seq<string>): int
  {
    Choose(pick, Rotation(pick, n), SafeOptions(rec, n, current, cap + PalOvercap(rec)), CategoriesUpTo(rec, n), priority)
  }

  // ---------------------------------------------------------------------
  // Unity Cup "A Team at Last"
  // ---------------------------------------------------------------------

  const UnityTeamEventKey := "scenario/Unity Cup/None/None/A Team at Last#s1"

  /** The team named by the first outcome of the preferred option, when it names one. */
  function TeamText(rec: EventRecord, pick: int): Option<string>
  {
    var data := Dicts.Lookup(rec.options, IntToString(pick));
    if data.Some? && data.value != [] then
      var team := Field(data.value[0], "team").GetOr(JNull);
      if Truthy(team) then Some(ScalarText(team)) else None
    else None
  }

  /** The running best of the team search: the first index whose match strictly beats everything before it. */
  function BestTeam(scores: seq<(bool, real)>): (r: (Option<nat>, real))
    ensures r.1 >= 0.0
    ensures r.0.Some? ==> r.0.value < |scores|
    decreases |scores|
  {
    if scores == [] then (None, 0.0)
    else
      var prev := BestTeam(scores[..|scores| - 1]);
      var x := scores[|scores| - 1];
      if x.0 && x.1 > prev.1 then (Some(|scores| - 1), x.1) else prev
  }

  /**
   * The chosen index is a match with a positive score no match beats and that
   * every earlier match falls short of; with none, no match scores above 0.
   */
  lemma {:induction false} BestTeamProps(scores: seq<(bool, real)>)
    ensures var r := BestTeam(scores);
            (r.0.Some? ==> scores[r.0.value].0 && scores[r.0.value].1 == r.1 > 0.0 &&
                           forall j :: 0 <= j < r.0.value && scores[j].0 ==> scores[j].1 < r.1) &&
            (forall j :: 0 <= j < |scores| && scores[j].0 ==> scores[j].1 <= r.1) &&
            (r.0.None? ==> r.1 == 0.0)
    decreases |scores|
  {
    if scores != [] {
      var init := scores[..|scores| - 1];
      BestTeamProps(init);
      assert forall j :: 0 <= j < |init| ==> init[j] == scores[j];
    }
  }

  function TeamScores(choices: seq<Det>, teamMatch: (Det, string) -> (bool, real), team: string): (s: seq<(bool, real)>)
    ensures |s| == |choices|
  {
    seq(|choices|, i requires 0 <= i < |choices| => teamMatch(choices[i], team))
  }

  /**
   * The pick after the team search and whether it overrides validation: the
   * matched choice, else the bottom one; untouched for other events or
   * without team text.
   */
  function TeamPick(rec: EventRecord, pick: int, choices: seq<Det>, teamMatch: (Det, string) -> (bool, real)): (r: (int, bool))
    ensures !r.1 ==> r.0 == pick
    ensures r.1 ==> rec.keyStep == UnityTeamEventKey && 0 <= r.0 <= |choices|
    ensures r.1 && choices != [] ==> 1 <= r.0
    ensures r.1 <==> rec.keyStep == UnityTeamEventKey && TeamText(rec, pick).Some?
  {
    if rec.keyStep != UnityTeamEventKey then (pick, false)
    else
      var team := TeamText(rec, pick);
      if team.None? then (pick, false)
      else
        var best := BestTeam(TeamScores(choices, teamMatch, team.value)).0;
        (if best.Some? then best.value + 1 else |choices|, true)
  }

  // ---------------------------------------------------------------------
  // The decision
  // ---------------------------------------------------------------------

  /** Where the decision stands: stopped (fall back to top) or going with a pick. */
  datatype Stage =
    | Stop(choices: seq<Det>)
    | Go(pick: int, choices: seq<Det>, expectedN: nat, teamOverride: bool)

  /**
   * Option-count and range validation. Without a team override, a mismatch
   * between visible and expected choices uses the re-capture when it has the
   * expected count or more detections, and then the pick must be visible; the
   * pick must be one of the expected options.
   */
  function Validate(rec: EventRecord, pick: int, teamOverride: bool, choices: seq<Det>, retry: seq<Det>): (g: Stage)
    ensures g.Go? ==> g.expectedN == |rec.options| >= 1 && g.teamOverride == teamOverride && g.pick == pick
    ensures g.Go? && !teamOverride ==> 1 <= g.pick <= g.expectedN && g.pick <= |g.choices|
    ensures g.Go? && teamOverride ==> g.choices == choices
    ensures |rec.options| == 0 ==> g == Stop(choices)
  {
    var n := |rec.options|;
    if n <= 0 then Stop(choices)
    else if teamOverride then Go(pick, choices, n, true)
    else
      var cs := if |choices| != n && (|retry| == n || |retry| > |choices|) then retry else choices;
      if |choices| != n && |retry| != n && pick > |cs| then Stop(cs)
      else if pick < 1 || pick > n then Stop(cs)
      else Go(pick, cs, n, false)
  }

  /** The energy check applies on the normal path when avoidance is on and the energy is known. */
  function EnergyStage(rec: EventRecord, g: Stage, energy: Option<int>, cap: int, avoid: bool, priority: seq<string>): Stage
  {
    if g.Go? && !g.teamOverride && avoid && energy.Some? && g.expectedN >= 1
    then g.(pick := AdjustForEnergy(rec, g.pick, g.expectedN, energy.value, cap, priority))
    else g
  }

  /** The confirmation phase: same event again, fewer choices than expected, and a previous pick above 1. */
  predicate ConfirmationPhase(last: Option<(string, int, int)>, keyStep: string, visible: nat, expectedN: nat)
  {
    last.Some? && keyStep == last.value.0 && visible < expectedN && last.value.1 > 1
  }

  function Confirm(g: Stage, last: Option<(string, int, int)>, keyStep: string): Stage
  {
    if g.Go? && ConfirmationPhase(last, keyStep, |g.choices|, g.expectedN) then g.(pick := 1) else g
  }

  /** Everything before the final bounds check. */
  function Prepare(rec: EventRecord, pick: int, choices: seq<Det>, retry: seq<Det>, last: Option<(string, int, int)>,
                   energy: Option<int>, cap: int, avoid: bool, priority: seq<string>,
                   teamMatch: (Det, string) -> (bool, real)): Stage
  {
    var tp := TeamPick(rec, pick, choices, teamMatch);
    Confirm(EnergyStage(rec, Validate(rec, tp.0, tp.1, choices, retry), energy, cap, avoid, priority), last, rec.keyStep)
  }

  /** What the screen ends in: a click on an option, the fall-back to the top option, or an exception. */
  datatype Verdict =
    | Clicked(key: string, keyStep: string, pick: int, target: Det, expectedN: nat)
    | FellBack(choices: seq<Det>)
    | Raises

  /** The final bounds check, rejecting every pick outside the visible choices. */
  function Finish(rec: EventRecord, g: Stage): (v: Verdict)
    ensures !v.Raises?
    ensures v.Clicked? ==> g.Go? && 1 <= v.pick <= |g.choices| && v.target == g.choices[v.pick - 1] && v.pick == g.pick
  {
    if g.Stop? then FellBack(g.choices)
    else if g.pick < 1 || g.pick > |g.choices| then FellBack(g.choices)
    else Clicked(rec.key, rec.keyStep, g.pick, g.choices[g.pick - 1], g.expectedN)
  }

  /** The final bounds check as written: only `pick > len(choices)` falls back; Python then indexes `choices[pick - 1]`. */
  function FinishAsWritten(rec: EventRecord, g: Stage): Verdict
  {
    if g.Stop? then FellBack(g.choices)
    else if g.pick > |g.choices| then FellBack(g.choices)
    else
      var i := g.pick - 1;
      if i >= 0 then Clicked(rec.key, rec.keyStep, g.pick, g.choices[i], g.expectedN)
      else if |g.choices| + i >= 0 then Clicked(rec.key, rec.keyStep, g.pick, g.choices[|g.choices| + i], g.expectedN)
      else Raises
  }

  /** The decision for a matched record, with the corrected bounds check. */
  function Decide(rec: EventRecord, pick: int, choices: seq<Det>, retry: seq<Det>, last: Option<(string, int, int)>,
                  energy: Option<int>, cap: int, avoid: bool, priority: seq<string>,
                  teamMatch: (Det, string) -> (bool, real)): Verdict
  {
    Finish(rec, Prepare(rec, pick, choices, retry, last, energy, cap, avoid, priority, teamMatch))
  }

  /** The decision for a matched record as the source writes it. */
  function DecideAsWritten(rec: EventRecord, pick: int, choices: seq<Det>, retry: seq<Det>, last: Option<(string, int, int)>,
                           energy: Option<int>, cap: int, avoid: bool, priority: seq<string>,
                           teamMatch: (Det, string) -> (bool, real)): Verdict
  {
    FinishAsWritten(rec, Prepare(rec, pick, choices, retry, last, energy, cap, avoid, priority, teamMatch))
  }

  // ---------------------------------------------------------------------
  // Properties of the decision
  // ---------------------------------------------------------------------

  /**
   * A click is always on a visible choice, the one at the pick's position,
   * and records the matched record's keys and its option count; without the
   * team override the pick is also one of the record's options.
   */
  lemma DecideClicksVisibleOption(rec: EventRecord, pick: int, choices: seq<Det>, retry: seq<Det>,
                                  last: Option<(string, int, int)>, energy: Option<int>, cap: int, avoid: bool,
                                  priority: seq<string>, teamMatch: (Det, string) -> (bool, real))
    ensures var v := Decide(rec, pick, choices, retry, last, energy, cap, avoid, priority, teamMatch);
            var g := Prepare(rec, pick, choices, retry, last, energy, cap, avoid, priority, teamMatch);
            v.Clicked? ==>
              g.Go? && 1 <= v.pick <= |g.choices| && v.target == g.choices[v.pick - 1] &&
              v.key == rec.key && v.keyStep == rec.keyStep && v.expectedN == |rec.options| &&
              (!g.teamOverride ==> v.pick <= |rec.options|)
  {
    var tp := TeamPick(rec, pick, choices, teamMatch);
    var g0 := Validate(rec, tp.0, tp.1, choices, retry);
    var g1 := EnergyStage(rec, g0, energy, cap, avoid, priority);
    var g := Confirm(g1, last, rec.keyStep);
    assert g == Prepare(rec, pick, choices, retry, last, energy, cap, avoid, priority, teamMatch);
    if g0.Go? && !g0.teamOverride && avoid && energy.Some? {
      AdjustForEnergyProps(rec, g0.pick, g0.expectedN, energy.value, cap, priority);
    }
    assert g1.Go? ==> g1.expectedN == |rec.options| && g1.teamOverride == g0.teamOverride &&
                      (!g1.teamOverride ==> 1 <= g1.pick <= |rec.options|);
    assert g.Go? ==> g.expectedN == |rec.options| && g.teamOverride == g1.teamOverride &&
                     (!g.teamOverride ==> 1 <= g.pick <= |rec.options|);
  }

  /**
   * The energy re-selection keeps a safe pick, turns an unsafe one into a
   * safe option whenever one exists, and stays among the options.
   */
  lemma AdjustForEnergyProps(rec: EventRecord, pick: int, n: nat, current: int, cap: int, priority: seq<string>)
    requires 1 <= pick <= n
    ensures var safe := SafeOptions(rec, n, current, cap + PalOvercap(rec));
            var p := AdjustForEnergy(rec, pick, n, current, cap, priority);
            1 <= p <= n && (pick in safe ==> p == pick) && (pick !in safe && safe != [] ==> p in safe)
  {
    var safe := SafeOptions(rec, n, current, cap + PalOvercap(rec));
    ChooseProps(pick, n, safe, CategoriesUpTo(rec, n), priority);
  }

  /** On the normal path with the energy known and avoidance on, the stage applies that re-selection. */
  lemma EnergyStageProps(rec: EventRecord, pick: int, choices: seq<Det>, retry: seq<Det>,
                         current: int, cap: int, priority: seq<string>)
    requires Validate(rec, pick, false, choices, retry).Go?
    ensures var g := Validate(rec, pick, false, choices, retry);
            var safe := SafeOptions(rec, g.expectedN, current, cap + PalOvercap(rec));
            var p := EnergyStage(rec, g, Some(current), cap, true, priority).pick;
            1 <= p <= g.expectedN && (pick in safe ==> p == pick) && (pick !in safe && safe != [] ==> p in safe)
  {
    var g := Validate(rec, pick, false, choices, retry);
    AdjustForEnergyProps(rec, pick, g.expectedN, current, cap, priority);
  }

  /**
   * The confirmation phase clicks option 1: the same event as the last click,
   * fewer visible choices than expected, and a previous pick above 1.
   */
  lemma ConfirmationClicksFirst(rec: EventRecord, pick: int, choices: seq<Det>, retry: seq<Det>,
                                last: Option<(string, int, int)>, energy: Option<int>, cap: int, avoid: bool,
                                priority: seq<string>, teamMatch: (Det, string) -> (bool, real))
    requires var tp := TeamPick(rec, pick, choices, teamMatch);
             var g := EnergyStage(rec, Validate(rec, tp.0, tp.1, choices, retry), energy, cap, avoid, priority);
             g.Go? && ConfirmationPhase(last, rec.keyStep, |g.choices|, g.expectedN) && g.choices != []
    ensures var tp := TeamPick(rec, pick, choices, teamMatch);
            var g := EnergyStage(rec, Validate(rec, tp.0, tp.1, choices, retry), energy, cap, avoid, priority);
            Decide(rec, pick, choices, retry, last, energy, cap, avoid, priority, teamMatch) ==
              Clicked(rec.key, rec.keyStep, 1, g.choices[0], |rec.options|)
  {
  }

  /** A record without options always falls back to the top option. */
  lemma NoOptionsFallsBack(rec: EventRecord, pick: int, choices: seq<Det>, retry: seq<Det>,
                           last: Option<(string, int, int)>, energy: Option<int>, cap: int, avoid: bool,
                           priority: seq<string>, teamMatch: (Det, string) -> (bool, real))
    requires |rec.options| == 0
    ensures Decide(rec, pick, choices, retry, last, energy, cap, avoid, priority, teamMatch) == FellBack(choices)
  {
  }

  /**
   * As written, the Unity Cup team event with team text and no visible
   * choice sets the pick to `len(choices) == 0`, skips validation, passes the
   * `pick > available_n` guard and indexes `choices[-1]` of an empty list.
   */
  lemma UnityTeamWithoutChoicesRaises(rec: EventRecord, pick: int, retry: seq<Det>, energy: Option<int>, cap: int,
                                      avoid: bool, priority: seq<string>, teamMatch: (Det, string) -> (bool, real))
    requires rec.keyStep == UnityTeamEventKey && TeamText(rec, pick).Some? && |rec.options| >= 1
    ensures DecideAsWritten(rec, pick, [], retry, None, energy, cap, avoid, priority, teamMatch) == Raises
  {
  }

  /** With the corrected bounds check the same screen falls back to the top option. */
  lemma UnityTeamWithoutChoicesFallsBack(rec: EventRecord, pick: int, retry: seq<Det>, last: Option<(string, int, int)>,
                                         energy: Option<int>, cap: int, avoid: bool, priority: seq<string>,
                                         teamMatch: (Det, string) -> (bool, real))
    requires rec.keyStep == UnityTeamEventKey && TeamText(rec, pick).Some?
    ensures Decide(rec, pick, [], retry, last, energy, cap, avoid, priority, teamMatch) == FellBack([])
  {
  }

  /** Wherever the as-written check does not raise, it agrees with the corrected one. */
  lemma FinishAgrees(rec: EventRecord, g: Stage)
    requires FinishAsWritten(rec, g) != Raises
    requires g.Go? ==> g.pick >= 1 || g.choices == []
    ensures FinishAsWritten(rec, g) == Finish(rec, g)
  {
  }

  // ---------------------------------------------------------------------
  // The loops of `process_event_screen`
  // ---------------------------------------------------------------------

  /** The team search over the visible choices. */
  method TeamSearch(choices: seq<Det>, teamMatch: (Det, string) -> (bool, real), team: string) returns (best: Option<nat>)
    ensures best == BestTeam(TeamScores(choices, teamMatch, team)).0
  {
    ghost var scores := TeamScores(choices, teamMatch, team);
    best := None;
    var bestScore := 0.0;
    var i := 0;
    while i < |choices|
      invariant 0 <= i <= |choices|
      invariant (best, bestScore) == BestTeam(scores[..i])
    {
      assert scores[..i + 1][..i] == scores[..i];
      var m := teamMatch(choices[i], team);
      if m.0 && m.1 > bestScore {
        best, bestScore := Some(i), m.1;
      }
      i := i + 1;
    }
    assert scores[..|choices|] == scores;
  }

  /** One option's energy test and reward categories. */
  method InspectOption(rec: EventRecord, k: int, current: int, limit: int) returns (ok: bool, categories: set<string>)
    ensures ok == IsSafe(EnergyPeak(Outcomes(rec, k)), current, limit)
    ensures categories == ExtractRewardCategories(Outcomes(rec, k))
  {
    var outcomes := Outcomes(rec, k);
    var gain := MaxPositiveEnergy(outcomes);
    ok := IsSafe(gain, current, limit);
    categories := ExtractRewardCategories(outcomes);
  }

  lemma ScanStep(rec: EventRecord, k: nat, current: int, limit: int)
    requires k >= 1
    ensures SafeOptions(rec, k, current, limit) ==
              if IsSafe(EnergyPeak(Outcomes(rec, k)), current, limit) then SafeOptions(rec, k - 1, current, limit) + [k]
              else SafeOptions(rec, k - 1, current, limit)
    ensures CategoriesUpTo(rec, k) == CategoriesUpTo(rec, k - 1)[k := ExtractRewardCategories(Outcomes(rec, k))]
  {
  }

  /** The option loop: which options are safe and which reward categories each one carries. */
  method ScanOptions(rec: EventRecord, n: nat, current: int, limit: int) returns (safe: seq<int>, cats: map<int, set<string>>)
    ensures safe == SafeOptions(rec, n, current, limit)
    ensures cats == CategoriesUpTo(rec, n)
  {
    safe, cats := [], map[];
    var k := 1;
    while k <= n
      invariant 1 <= k <= n + 1
      invariant safe == SafeOptions(rec, k - 1, current, limit)
      invariant cats == CategoriesUpTo(rec, k - 1)
    {
      safe, cats := ScanOption(rec, k, current, limit, safe, cats);
      k := k + 1;
    }
    assert k - 1 == n;
  }

  /** One option of that loop: kept when its energy peak is safe, its reward categories recorded. */
  method ScanOption(rec: EventRecord, k: nat, current: int, limit: int, safe0: seq<int>, cats0: map<int, set<string>>)
    returns (safe: seq<int>, cats: map<int, set<string>>)
    requires k >= 1 && safe0 == SafeOptions(rec, k - 1, current, limit) && cats0 == CategoriesUpTo(rec, k - 1)
    ensures safe == SafeOptions(rec, k, current, limit) && cats == CategoriesUpTo(rec, k)
  {
    var ok, categories := InspectOption(rec, k, current, limit);
    safe := safe0;
    if ok {
      safe := safe + [k];
    }
    cats := cats0[k := categories];
    ScanStep(rec, k, current, limit);
  }

  /** The first safe option in rotation order, `pick` when there is none. */
  method FirstSafeCandidate(order: seq<int>, safe: seq<int>, pick: int) returns (c: int)
    ensures c == FirstSafeOr(order, safe, pick)
  {
    ghost var s := set o | o in safe;
    var i := 0;
    while i < |order|
      invariant 0 <= i <= |order|
      invariant forall k :: 0 <= k < i ==> order[k] !in s
    {
      if order[i] in safe {
        var f := FirstSafe(order, s);
        assert !(f < i) && !(f > i);
        return order[i];
      }
      i := i + 1;
    }
    return pick;
  }

  /** The energy re-selection of `process_event_screen`. */
  method EnergyAdjust(rec: EventRecord, pick: int, n: nat, current: int, cap: int, priority: seq<string>) returns (adjusted: int)
    ensures adjusted == AdjustForEnergy(rec, pick, n, current, cap, priority)
  {
    var order := Rotation(pick, n);
    var safe, cats := ScanOptions(rec, n, current, cap + PalOvercap(rec));
    adjusted := pick;
    var selection: Option<(int, Option<string>)> := None;
    if pick !in safe {
      selection := SelectCandidateByPriority(order, safe, cats, priority);
    }
    if selection.Some? {
      adjusted := selection.value.0;
    } else if safe != [] {
      adjusted := FirstSafeCandidate(order, safe, pick);
    }
  }

  /** The decision for a matched record, stage by stage as `process_event_screen` takes it. */
  method DecideScreen(rec: EventRecord, pick0: int, choices: seq<Det>, retry: seq<Det>, last: Option<(string, int, int)>,
                      energy: Option<int>, cap: int, avoid: bool, priority: seq<string>,
                      teamMatch: (Det, string) -> (bool, real)) returns (v: Verdict)
    ensures v == Decide(rec, pick0, choices, retry, last, energy, cap, avoid, priority, teamMatch)
  {
    var pick, teamOverride := TeamStage(rec, pick0, choices, teamMatch);
    var g := Validate(rec, pick, teamOverride, choices, retry);
    g := EnergyStep(rec, g, energy, cap, avoid, priority);
    g := Confirm(g, last, rec.keyStep);
    v := Finish(rec, g);
  }

  /** The Unity Cup team-name override of `process_event_screen`. */
  method TeamStage(rec: EventRecord, pick0: int, choices: seq<Det>, teamMatch: (Det, string) -> (bool, real))
    returns (pick: int, teamOverride: bool)
    ensures (pick, teamOverride) == TeamPick(rec, pick0, choices, teamMatch)
  {
    pick := pick0;
    teamOverride := false;
    if rec.keyStep == UnityTeamEventKey {
      var team := TeamText(rec, pick);
      if team.Some? {
        var best := TeamSearch(choices, teamMatch, team.value);
        pick := if best.Some? then best.value + 1 else |choices|;
        teamOverride := true;
      }
    }
  }

  /** The energy stage of `process_event_screen`: only a plain pick under energy avoidance is re-selected. */
  method EnergyStep(rec: EventRecord, g0: Stage, energy: Option<int>, cap: int, avoid: bool, priority: seq<string>)
    returns (g: Stage)
    ensures g == EnergyStage(rec, g0, energy, cap, avoid, priority)
  {
    g := g0;
    if g.Go? && !g.teamOverride && avoid && energy.Some? && g.expectedN >= 1 {
      var adjusted := EnergyAdjust(rec, g.pick, g.expectedN, energy.value, cap, priority);
      g := g.(pick := adjusted);
    }
  }

  // ---------------------------------------------------------------------
  // The screen
  // ---------------------------------------------------------------------

  /**
   * What the engine reads off one event screen: YOLO detections, the colour
   * test for chain arrows, banner OCR (title and description) when a portrait
   * card is present, the OCR lines of the central band otherwise (`None` when
   * the reader returns a plain string, which the code then ignores), the
   * portrait's pHash, the detections of the re-capture, the team-name matcher
   * (OCR of a choice and `fuzzy_contains` at 0.55) and the energy reading.
   */
  datatype Observation = Observation(
    parsed: seq<Det>,
    isBlueChain: Det -> bool,
    bannerTitle: string,
    bannerDescription: string,
    centralLines: Option<seq<string>>,
    portraitPhash: Option<nat>,
    retryParsed: seq<Det>,
    teamMatch: (Det, string) -> (bool, real),
    currentEnergy: Option<int>,
    maxEnergyCap: int)

  function OcrTitle(obs: Observation, card: Option<Det>): string
  {
    if card.Some? then obs.bannerTitle
    else if obs.centralLines.Some? && obs.centralLines.value != [] then obs.centralLines.value[0]
    else ""
  }

  function OcrDescription(obs: Observation, card: Option<Det>): string
  {
    if card.Some? then obs.bannerDescription else ""
  }

  /** The type hint read off the title. */
  function TypeHint(title: string): (r: Option<string>)
    ensures r.Some? ==> Contains(Lower(title), r.value)
    ensures r.None? ==> !Contains(Lower(title), "support") && !Contains(Lower(title), "trainee")
  {
    if Contains(Lower(title), "support") then Some("support")
    else if Contains(Lower(title), "trainee") then Some("trainee")
    else None
  }

  /** The retrieval query: the description (else the title), the hints, and the portrait when a card is present. */
  function BuildQuery(obs: Observation, preferredTrainee: Option<string>): (q: Query)
    ensures q.nameHint.None? && q.rarityHint.None? && q.portraitPhash.None?
    ensures q.hasPortraitImage <==> PickEventCard(obs.parsed).Some?
    ensures q.chainStepHint == ChainStepHint(obs.parsed, obs.isBlueChain, PickEventCard(obs.parsed))
    ensures q.preferredTraineeName.Some? ==> q.typeHint == Some("trainee")
  {
    var card := PickEventCard(obs.parsed);
    var title := OcrTitle(obs, card);
    var description := OcrDescription(obs, card);
    var th := TypeHint(title);
    Query(if description != "" then description else title, th, None, None, None,
          ChainStepHint(obs.parsed, obs.isBlueChain, card), card.Some?, None,
          if card.Some? then obs.portraitPhash else None, None,
          if th == Some("trainee") then preferredTrainee else None)
  }

  /** A chain hint other than 1 earns one retry when nothing is found. */
  predicate NeedsRetry(q: Query)
  {
    q.chainStepHint.Some? && q.chainStepHint.value != 0 && q.chainStepHint.value != 1
  }

  /**
   * Retrieval with its single retry: at most three results of score 0.5,
   * and when there are none and the chain hint is not 1, one more search
   * with hint 1 and minimum score 0.6.
   */
  function Candidates(catalog: seq<EventRecord>, q: Query, m: Matchers, remoteCv: Dicts.Dict<string, real>): (r: seq<MatchResult>)
    ensures RetrieveSpec(catalog, q, 3, 0.5, m, remoteCv) != [] ==> r == RetrieveSpec(catalog, q, 3, 0.5, m, remoteCv)
    ensures RetrieveSpec(catalog, q, 3, 0.5, m, remoteCv) == [] && !NeedsRetry(q) ==> r == []
    ensures RetrieveSpec(catalog, q, 3, 0.5, m, remoteCv) == [] && NeedsRetry(q) ==>
              r == RetrieveSpec(catalog, q.(chainStepHint := Some(1)), 3, 0.6, m, remoteCv)
  {
    var first := RetrieveSpec(catalog, q, 3, 0.5, m, remoteCv);
    if first == [] && NeedsRetry(q) then RetrieveSpec(catalog, q.(chainStepHint := Some(1)), 3, 0.6, m, remoteCv)
    else first
  }

  /** What `process_event_screen` returns (the debug dictionary is not modelled). */
  datatype EventDecision = EventDecision(matchedKey: Option<string>, matchedKeyStep: Option<string>, pickOption: int, clicked: Option<Det>)

  /** `_fallback_click_top`'s result: option 1, no match, the top choice clicked when there is one. */
  function FallbackDecision(choices: seq<Det>): (d: EventDecision)
    ensures d.matchedKey.None? && d.matchedKeyStep.None? && d.pickOption == 1
    ensures d.clicked.None? <==> choices == []
    ensures d.clicked.Some? ==> d.clicked.value == choices[0]
  {
    EventDecision(None, None, 1, if choices == [] then None else Some(choices[0]))
  }

  function DecisionOf(v: Verdict): EventDecision
  {
    match v
    case Clicked(key, keyStep, pick, target, _) => EventDecision(Some(key), Some(keyStep), pick, Some(target))
    case FellBack(cs) => FallbackDecision(cs)
    case Raises => FallbackDecision([])
  }

  /** `_last_event_clicked` after the screen: the click, or nothing after a fall-back. */
  function StateAfter(v: Verdict, last: Option<(string, int, int)>): Option<(string, int, int)>
  {
    match v
    case Clicked(_, keyStep, pick, _, n) => Some((keyStep, pick, n))
    case FellBack(_) => None
    case Raises => last
  }

  /** The event screen's state machine; its only state is the last click. */
  class EventFlow {
    const catalog: seq<EventRecord>
    const matchers: Matchers
    const remoteCv: Dicts.Dict<string, real>
    const prefs: EventPrefs.UserPrefs
    const confMinChoice: real
    var lastEventClicked: Option<(string, int, int)>

    constructor (catalog: seq<EventRecord>, matchers: Matchers, remoteCv: Dicts.Dict<string, real>,
                 prefs: EventPrefs.UserPrefs, confMinChoice: real)
      ensures this.catalog == catalog && this.matchers == matchers && this.remoteCv == remoteCv
      ensures this.prefs == prefs && this.confMinChoice == confMinChoice
      ensures lastEventClicked.None?
    {
      this.catalog := catalog;
      this.matchers := matchers;
      this.remoteCv := remoteCv;
      this.prefs := prefs;
      this.confMinChoice := confMinChoice;
      lastEventClicked := None;
    }

    /** What the screen ends in once the record `rec` is matched, given the last click. */
    function MatchedOutcome(obs: Observation, rec: EventRecord, choices: seq<Det>): Verdict
      requires prefs.Valid()
      reads this, prefs
    {
      var pick := EventPrefs.Resolve(prefs.overrides, EventPrefs.Aliases(prefs.overrides), prefs.patterns,
                                     prefs.defaultByType, rec).pick;
      Decide(rec, pick, choices, SortTopToBottom(Choices(obs.retryParsed, confMinChoice)), lastEventClicked,
             obs.currentEnergy, obs.maxEnergyCap, prefs.ShouldAvoidEnergy(rec), prefs.RewardPriorityFor(rec),
             obs.teamMatch)
    }

    /** What the screen ends in, given the last click. */
    function Outcome(obs: Observation): Verdict
      requires prefs.Valid()
      reads this, prefs
    {
      var choices := SortTopToBottom(Choices(obs.parsed, confMinChoice));
      var cands := Candidates(catalog, BuildQuery(obs, prefs.preferredTraineeName), matchers, remoteCv);
      if cands == [] then FellBack(choices) else MatchedOutcome(obs, cands[0].rec, choices)
    }

    /** `process_event_screen`. */
    method ProcessEventScreen(obs: Observation) returns (d: EventDecision)
      requires prefs.Valid()
      modifies this`lastEventClicked, prefs`aliasOverrides
      ensures prefs.Valid()
      ensures d == DecisionOf(old(Outcome(obs)))
      ensures lastEventClicked == StateAfter(old(Outcome(obs)), old(lastEventClicked))
    {
      var choices := SortTopToBottom(Choices(obs.parsed, confMinChoice));
      var cands := Retrieve(BuildQuery(obs, prefs.preferredTraineeName));
      if cands == [] {
        d := FallbackClickTop(choices);
      } else {
        d := HandleMatch(obs, cands[0].rec, choices);
      }
    }

    /** Retrieval with its retry. */
    method Retrieve(q: Query) returns (cands: seq<MatchResult>)
      ensures cands == Candidates(catalog, q, matchers, remoteCv)
    {
      cands := RetrieveBest(catalog, q, 3, 0.5, matchers, remoteCv);
      if cands == [] && NeedsRetry(q) {
        cands := RetrieveBest(catalog, q.(chainStepHint := Some(1)), 3, 0.6, matchers, remoteCv);
      }
    }

    /** The screen after the record `rec` is matched: pick, decide, click or fall back. */
    method HandleMatch(obs: Observation, rec: EventRecord, choices: seq<Det>) returns (d: EventDecision)
      requires prefs.Valid()
      modifies this`lastEventClicked, prefs`aliasOverrides
      ensures prefs.Valid()
      ensures d == DecisionOf(old(MatchedOutcome(obs, rec, choices)))
      ensures lastEventClicked == StateAfter(old(MatchedOutcome(obs, rec, choices)), old(lastEventClicked))
    {
      var avoid := prefs.ShouldAvoidEnergy(rec);
      var priority := prefs.RewardPriorityFor(rec);
      var retry := SortTopToBottom(Choices(obs.retryParsed, confMinChoice));
      var last := lastEventClicked;
      var pick := prefs.PickFor(rec);
      var v := DecideScreen(rec, pick, choices, retry, last, obs.currentEnergy, obs.maxEnergyCap, avoid, priority, obs.teamMatch);
      d := Apply(v);
    }

    /** Records a click, or forgets the last one on a fall-back. */
    method Apply(v: Verdict) returns (d: EventDecision)
      requires !v.Raises?
      modifies this`lastEventClicked
      ensures d == DecisionOf(v)
      ensures lastEventClicked == StateAfter(v, old(lastEventClicked))
    {
      if v.Clicked? {
        lastEventClicked := Some((v.keyStep, v.pick, v.expectedN));
        d := DecisionOf(v);
      } else {
        d := FallbackClickTop(v.choices);
      }
    }

    /** `_fallback_click_top`: forgets the last click and takes option 1. */
    method FallbackClickTop(choices: seq<Det>) returns (d: EventDecision)
      modifies this`lastEventClicked
      ensures lastEventClicked.None?
      ensures d == FallbackDecision(choices)
    {
      lastEventClicked := None;
      d := FallbackDecision(choices);
    }
  }
}
