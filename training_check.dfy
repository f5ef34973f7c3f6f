/**
 * Support-value scoring of training tiles: per-support contributions, the
 * tile-capped hint bonus, the rainbow combo, and the failure-risk gate.
 */
module TrainingCheck {
  import opened Wrappers
  import opened Strings
  import opened SkillNames
  import opened Sorting

  const GreedyThreshold: real := 2.5

  /** `skillsRequiredForPriority`: absent, a list of names, or one comma-separated string. */
  datatype Required = ReqNone | ReqList(items: seq<string>) | ReqText(text: string)

  /** A support's priority configuration; a missing score falls back to the default. */
  datatype PriorityCfg = PriorityCfg(enabled: bool, required: Required,
                                     scoreBlueGreen: Option<real>, scoreOrangeMax: Option<real>)

  /** One detected support on a tile; `priority` is none when the support has no configuration. */
  datatype Support = Support(name: string, color: string, isMax: bool, hasHint: bool, hasRainbow: bool,
                             supportType: string, priority: Option<PriorityCfg>, matchedCard: bool)

  datatype Tile = Tile(tileIdx: int, failurePct: int, supports: seq<Support>)

  /** The settings the scorer reads. */
  datatype Knobs = Knobs(hintImportant: bool, maxFailure: int,
                         defaultEnabled: bool, defaultBlueGreen: real, defaultOrangeMax: real)

  /** `TileSV`, without the human-readable notes. */
  datatype TileSV = TileSV(tileIdx: int, failurePct: int, riskLimitPct: int, allowedByRisk: bool,
                           svTotal: real, svByType: map<string, real>, greedyHit: bool)

  // ---------------------------------------------------------------------
  // Special supports
  // ---------------------------------------------------------------------

  /**
   * `DIRECTOR_SCORE_BY_COLOR`, with unknown colours scored as yellow: the
   * lower the friendship bar, the more the director is worth.
   */
  function DirectorScore(color: string): (r: real)
    ensures 0.0 <= r <= 0.25
    ensures color == "blue" ==> r == 0.25
    ensures color == "green" ==> r == 0.15
    ensures color == "orange" ==> r == 0.10
    ensures color !in {"blue", "green", "orange"} ==> r == 0.0
    ensures r > 0.0 <==> color in {"blue", "green", "orange"}
  {
    if color == "blue" then 0.25
    else if color == "green" then 0.15
    else if color == "orange" then 0.10
    else 0.0
  }

  /** Tazuna's score (and Kashimoto's as a PAL). */
  function PalScore(color: string): real
  {
    if color == "blue" then 1.5 else 0.15
  }

  const KnownTypes: set<string> := {"SPD", "STA", "PWR", "GUTS", "WIT", "PAL"}

  predicate IsSpecial(name: string)
  {
    name in {"support_etsuko", "support_director", "support_tazuna", "support_kashimoto"}
  }

  /** The friendship colour as scored: lower-cased, and yellow when the bar is maxed. */
  function ColorOf(s: Support): string
  {
    var c := Lower(s.color);
    if s.isMax && c !in {"yellow", "max"} then "yellow" else c
  }

  // ---------------------------------------------------------------------
  // Hints
  // ---------------------------------------------------------------------

  /** The raw required names: the list's items, or the comma-separated parts of the text. */
  function ReqItems(req: Required): seq<string>
  {
    match req
    case ReqNone => []
    case ReqList(items) => items
    case ReqText(text) => Split(text, ',')
  }

  function CanonAll(items: seq<string>): (r: seq<string>)
    ensures |r| == |items|
    ensures forall i :: 0 <= i < |items| ==> r[i] == CanonSkill(items[i])
  {
    seq(|items|, i requires 0 <= i < |items| => CanonSkill(items[i]))
  }

  predicate NonBlank(name: string) { name != "" }

  /**
   * The required names as the gate compares them: each raw name made
   * canonical, the empty ones dropped, in order.
   */
  function RequiredNames(req: Required): (r: seq<string>)
    ensures forall i :: 0 <= i < |r| ==> r[i] != ""
    ensures r == Filter(CanonAll(ReqItems(req)), NonBlank)
  {
    NonEmptyCanon(ReqItems(req))
  }

  function NonEmptyCanon(items: seq<string>): (r: seq<string>)
    ensures forall i :: 0 <= i < |r| ==> r[i] != ""
    ensures r == Filter(CanonAll(items), NonBlank)
  {
    if |items| == 0 then []
    else
      var c := CanonSkill(items[0]);
      assert CanonAll(items)[1..] == CanonAll(items[1..]);
      (if c != "" then [c] else []) + NonEmptyCanon(items[1..])
  }

  /** A hint is gated off once every required skill has been bought. */
  predicate Gated(req: Required, bought: string -> bool)
  {
    var names := RequiredNames(req);
    |names| > 0 && forall i :: 0 <= i < |names| ==> bought(names[i])
  }

  /** `_hint_candidate_for_support`: the hint's effective value and whether it is enabled. */
  function HintCandidate(s: Support, blueGreen: bool, k: Knobs, bought: string -> bool): (r: (real, bool))
  {
    var cfg := if s.priority.Some? then s.priority.value
               else PriorityCfg(k.defaultEnabled, ReqNone, Some(k.defaultBlueGreen), Some(k.defaultOrangeMax));
    var matched := s.priority.Some? && s.matchedCard;
    var enabled := cfg.enabled && !Gated(cfg.required, bought);
    var defaultValue := if blueGreen then k.defaultBlueGreen else k.defaultOrangeMax;
    var configured := if blueGreen then cfg.scoreBlueGreen else cfg.scoreOrangeMax;
    var configValue := if configured.Some? then configured.value else defaultValue;
    var base := if matched then configValue else defaultValue;
    var mult := if k.hintImportant then 3.0 else 1.0;
    (if enabled then base * mult else 0.0, enabled)
  }

  /** A disabled or gated hint is worth nothing; an important hint is worth three times as much. */
  lemma HintValueRules(s: Support, blueGreen: bool, k: Knobs, bought: string -> bool)
    ensures var cfgEnabled := if s.priority.Some? then s.priority.value.enabled else k.defaultEnabled;
            !cfgEnabled || (s.priority.Some? && Gated(s.priority.value.required, bought)) ==>
              HintCandidate(s, blueGreen, k, bought) == (0.0, false)
    ensures HintCandidate(s, blueGreen, k.(hintImportant := true), bought).0 ==
            3.0 * HintCandidate(s, blueGreen, k.(hintImportant := false), bought).0
  {
  }

  /** With every required skill bought, the hint is switched off. */
  lemma AllBoughtGates(s: Support, blueGreen: bool, k: Knobs, bought: string -> bool)
    requires s.priority.Some? && |RequiredNames(s.priority.value.required)| > 0
    requires forall n :: bought(n)
    ensures HintCandidate(s, blueGreen, k, bought) == (0.0, false)
  {
  }

  // ---------------------------------------------------------------------
  // Per-support contributions
  // ---------------------------------------------------------------------

  /** The running totals of one tile. */
  datatype Acc = Acc(sv: real, byType: map<string, real>, blue: seq<real>, orange: seq<real>, rainbow: int)

  const Empty := Acc(0.0, map[], [], [], 0)

  function AddTo(m: map<string, real>, key: string, x: real): map<string, real>
  {
    m[key := (if key in m then m[key] else 0.0) + x]
  }

  /** The loop body over a tile's supports. */
  function Step(a: Acc, s: Support, k: Knobs, bought: string -> bool): Acc
  {
    var color := ColorOf(s);
    var stype := Upper(Strip(s.supportType));
    if s.name == "support_etsuko" then
      a.(sv := a.sv + 0.1, byType := AddTo(a.byType, "special_reporter", 0.1))
    else if s.name == "support_director" then
      var score := DirectorScore(color);
      if score > 0.0 then a.(sv := a.sv + score, byType := AddTo(a.byType, "special_director", score)) else a
    else if s.name == "support_tazuna" then
      var score := PalScore(color);
      a.(sv := a.sv + score, byType := AddTo(a.byType, "special_tazuna", score))
    else if s.name == "support_kashimoto" then
      if stype in KnownTypes && stype != "" then
        var score := PalScore(color);
        a.(sv := a.sv + score, byType := AddTo(a.byType, "special_kashimoto_pal", score))
      else
        var score := DirectorScore(color);
        if score > 0.0 then a.(sv := a.sv + score, byType := AddTo(a.byType, "special_kashimoto_director", score)) else a
    else
      var a1 := if s.hasRainbow then a.(sv := a.sv + 1.0, rainbow := a.rainbow + 1) else a;
      if color in {"blue", "green"} then
        var a2 := a1.(sv := a1.sv + 1.0, byType := AddTo(a1.byType, "cards", 1.0));
        var h := HintCandidate(s, true, k, bought);
        if s.hasHint && h.1 then a2.(blue := a2.blue + [h.0]) else a2
      else if color in {"orange", "yellow"} || s.isMax then
        var h := HintCandidate(s, false, k, bought);
        if s.hasHint && h.1 then a1.(orange := a1.orange + [h.0]) else a1
      else a1
  }

  /** What a special support adds, by the rules of its cameo. */
  function SpecialScore(s: Support): real
  {
    var color := ColorOf(s);
    if s.name == "support_etsuko" then 0.1
    else if s.name == "support_director" then DirectorScore(color)
    else if s.name == "support_tazuna" then PalScore(color)
    else if Upper(Strip(s.supportType)) in KnownTypes && Upper(Strip(s.supportType)) != "" then PalScore(color)
    else DirectorScore(color)
  }

  /** What a support adds before hints: its special score, or 1 for a rainbow plus 1 for a blue or green bar. */
  function BaseScore(s: Support): real
  {
    if IsSpecial(s.name) then SpecialScore(s)
    else (if s.hasRainbow then 1.0 else 0.0) + (if ColorOf(s) in {"blue", "green"} then 1.0 else 0.0)
  }

  /** Each support adds its base score to the total, and a special one neither hints nor counts as rainbow. */
  lemma StepScore(a: Acc, s: Support, k: Knobs, bought: string -> bool)
    ensures var r := Step(a, s, k, bought);
            r.sv == a.sv + BaseScore(s) &&
            r.rainbow == a.rainbow + (if !IsSpecial(s.name) && s.hasRainbow then 1 else 0) &&
            (IsSpecial(s.name) ==> r.blue == a.blue && r.orange == a.orange)
  {
  }

  /** Orange and yellow supports add nothing on their own. */
  lemma OrangeAddsNothing(s: Support)
    requires !IsSpecial(s.name) && !s.hasRainbow && ColorOf(s) in {"orange", "yellow"}
    ensures BaseScore(s) == 0.0
  {
  }

  /** The loop over a tile's supports. */
  function Fold(a: Acc, ss: seq<Support>, k: Knobs, bought: string -> bool): Acc
  {
    if |ss| == 0 then a else Step(Fold(a, ss[..|ss| - 1], k, bought), ss[|ss| - 1], k, bought)
  }

  function SumBase(ss: seq<Support>): real
  {
    if |ss| == 0 then 0.0 else SumBase(ss[..|ss| - 1]) + BaseScore(ss[|ss| - 1])
  }

  function RainbowCount(ss: seq<Support>): nat
  {
    if |ss| == 0 then 0
    else RainbowCount(ss[..|ss| - 1]) + (if !IsSpecial(ss[|ss| - 1].name) && ss[|ss| - 1].hasRainbow then 1 else 0)
  }

  /** The loop's total is the sum of base scores, and its rainbow count counts rainbow standard supports. */
  lemma {:induction false} FoldTotals(ss: seq<Support>, k: Knobs, bought: string -> bool)
    ensures Fold(Empty, ss, k, bought).sv == SumBase(ss)
    ensures Fold(Empty, ss, k, bought).rainbow == RainbowCount(ss)
  {
    if |ss| > 0 {
      FoldTotals(ss[..|ss| - 1], k, bought);
      StepScore(Fold(Empty, ss[..|ss| - 1], k, bought), ss[|ss| - 1], k, bought);
    }
  }

  // ---------------------------------------------------------------------
  // Tile totals
  // ---------------------------------------------------------------------

  /** `max(candidates)` by value. */
  function MaxOf(xs: seq<real>): (m: real)
    requires |xs| > 0
    ensures m in xs && forall i :: 0 <= i < |xs| ==> xs[i] <= m
  {
    if |xs| == 1 then xs[0]
    else
      var m := MaxOf(xs[..|xs| - 1]);
      assert forall i :: 0 <= i < |xs| - 1 ==> xs[..|xs| - 1][i] == xs[i];
      if xs[|xs| - 1] > m then xs[|xs| - 1] else m
  }

  /** The chosen hint: the blue/green maximum if positive, replaced by the orange/max maximum if larger. */
  function BestHint(blue: seq<real>, orange: seq<real>): (r: (real, Option<string>))
  {
    var b := if |blue| > 0 && MaxOf(blue) > 0.0 then (MaxOf(blue), Some("hint_bluegreen")) else (0.0, None);
    if |orange| > 0 && MaxOf(orange) > b.0 then (MaxOf(orange), Some("hint_orange_max")) else b
  }

  /** Tile capping: the one hint added is the largest candidate of both buckets, or nothing when none is positive. */
  lemma BestHintIsLargest(blue: seq<real>, orange: seq<real>)
    ensures var r := BestHint(blue, orange);
            r.0 >= 0.0 && (r.1.Some? <==> r.0 > 0.0) &&
            (forall i :: 0 <= i < |blue| ==> blue[i] <= r.0) &&
            (forall i :: 0 <= i < |orange| ==> orange[i] <= r.0) &&
            (r.0 > 0.0 ==> r.0 in blue + orange)
  {
  }

  /** The risk multiplier by support value; the middle steps are skipped when hints are important and present. */
  function RiskMult(sv: real, hintCapped: bool): (m: real)
    ensures 1.0 <= m <= 2.0
  {
    if sv >= 5.0 then 2.0
    else if sv >= 3.5 && !hintCapped then 1.5
    else if sv >= 2.75 && !hintCapped then 1.35
    else if sv >= 2.25 then 1.25
    else 1.0
  }

  /** Python's `int()` on a float: truncation toward zero. */
  function Trunc(x: real): int
  {
    if x >= 0.0 then x.Floor else -((-x).Floor)
  }

  /** `int(min(100, base_limit * risk_mult))`. */
  function RiskLimit(maxFailure: int, mult: real): (r: int)
    ensures r <= 100
  {
    var y := maxFailure as real * mult;
    Trunc(if y < 100.0 then y else 100.0)
  }

  /** Steps 2 to 5 of a tile: hint, combo, risk gate, greedy mark. */
  function Finish(tile: Tile, a: Acc, k: Knobs): TileSV
  {
    var best := BestHint(a.blue, a.orange);
    var sv1 := if best.1.Some? && best.0 > 0.0 then a.sv + best.0 else a.sv;
    var by1 := if best.1.Some? && best.0 > 0.0 then AddTo(a.byType, best.1.value, best.0) else a.byType;
    var sv2 := if a.rainbow >= 2 then sv1 + 0.5 else sv1;
    var by2 := if a.rainbow >= 2 then AddTo(by1, "rainbow_combo", 0.5) else by1;
    var hasHint := |a.blue| > 0 || |a.orange| > 0;
    var limit := RiskLimit(k.maxFailure, RiskMult(sv2, hasHint && k.hintImportant));
    var allowed := tile.failurePct <= limit;
    TileSV(tile.tileIdx, tile.failurePct, limit, allowed, sv2, by2, sv2 >= GreedyThreshold && allowed)
  }

  /** The score of one tile. */
  function TileValue(tile: Tile, k: Knobs, bought: string -> bool): TileSV
  {
    Finish(tile, Fold(Empty, tile.supports, k, bought), k)
  }

  /**
   * A tile's value is the sum of its supports' base scores, plus the one
   * largest hint, plus 0.5 once for two or more rainbow supports.
   */
  lemma TileValueDecomposes(tile: Tile, k: Knobs, bought: string -> bool)
    ensures var a := Fold(Empty, tile.supports, k, bought);
            TileValue(tile, k, bought).svTotal ==
            SumBase(tile.supports) + BestHint(a.blue, a.orange).0 + (if RainbowCount(tile.supports) >= 2 then 0.5 else 0.0)
  {
    FoldTotals(tile.supports, k, bought);
    BestHintIsLargest(Fold(Empty, tile.supports, k, bought).blue, Fold(Empty, tile.supports, k, bought).orange);
  }

  /** The risk gate: the limit never exceeds 100, a tile is allowed iff its failure is within it, and greedy needs both. */
  lemma TileRiskGate(tile: Tile, k: Knobs, bought: string -> bool)
    ensures var r := TileValue(tile, k, bought);
            r.riskLimitPct <= 100 &&
            (r.allowedByRisk <==> tile.failurePct <= r.riskLimitPct) &&
            (r.greedyHit <==> r.allowedByRisk && r.svTotal >= GreedyThreshold) &&
            r.tileIdx == tile.tileIdx && r.failurePct == tile.failurePct
  {
  }

  /** With a non-negative base limit the risk limit is at least the base limit, capped at 100. */
  lemma RiskLimitRelaxes(maxFailure: int, sv: real, hintCapped: bool)
    requires 0 <= maxFailure <= 100
    ensures maxFailure <= RiskLimit(maxFailure, RiskMult(sv, hintCapped)) <= 100
  {
    var m := RiskMult(sv, hintCapped);
    var y := maxFailure as real * m;
    assert y >= maxFailure as real;
  }

  // ---------------------------------------------------------------------
  // The loops
  // ---------------------------------------------------------------------

  /** One tile of `compute_support_values`. */
  method ScoreTile(tile: Tile, k: Knobs, bought: string -> bool) returns (r: TileSV)
    ensures r == TileValue(tile, k, bought)
  {
    var sv := 0.0;
    var byType: map<string, real> := map[];
    var blueHints: seq<real> := [];
    var orangeHints: seq<real> := [];
    var rainbowCount := 0;
    var ss := tile.supports;
    for i := 0 to |ss|
      invariant Acc(sv, byType, blueHints, orangeHints, rainbowCount) == Fold(Empty, ss[..i], k, bought)
    {
      assert ss[..i + 1][..i] == ss[..i];
      var a := Step(Acc(sv, byType, blueHints, orangeHints, rainbowCount), ss[i], k, bought);
      sv, byType, blueHints, orangeHints, rainbowCount := a.sv, a.byType, a.blue, a.orange, a.rainbow;
    }
    assert ss[..|ss|] == ss;
    r := Finish(tile, Acc(sv, byType, blueHints, orangeHints, rainbowCount), k);
  }

  /** `compute_support_values`: one row per tile, in input order. */
  method ComputeSupportValues(tiles: seq<Tile>, k: Knobs, bought: string -> bool) returns (out: seq<TileSV>)
    ensures |out| == |tiles|
    ensures forall i :: 0 <= i < |tiles| ==> out[i] == TileValue(tiles[i], k, bought)
  {
    out := [];
    for i := 0 to |tiles|
      invariant |out| == i
      invariant forall j :: 0 <= j < i ==> out[j] == TileValue(tiles[j], k, bought)
    {
      var row := ScoreTile(tiles[i], k, bought);
      out := out + [row];
    }
  }
}
