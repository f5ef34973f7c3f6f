/**
 * The data transforms of the event scraper: range values and worst-case
 * scoring, the default-preference choice, the support-defaults argument,
 * option labels, the Gametora effect list, and the trainee overrides and
 * shared-event merge applied before export.
 */
module ScrapeEvents {
  import opened Wrappers
  import opened Strings
  import opened JsonValues
  import opened Sorting
  import Dicts
  import opened JsonEdit

  // ---------------------------------------------------------------------
  // Range values
  // ---------------------------------------------------------------------

  /** One part of a range: its value when it is a plain number, else the first number in it, else 0. */
  function RangePart(p: string): real
  {
    if IsDecimal(p) then MatchDecimal(p).value.0 else SearchDecimal(p).GetOr(0.0)
  }

  function StripAll(parts: seq<string>): (r: seq<string>)
    ensures |r| == |parts|
    ensures forall i :: 0 <= i < |parts| ==> r[i] == Strip(parts[i])
  {
    seq(|parts|, i requires 0 <= i < |parts| => Strip(parts[i]))
  }

  /** The parts of a value string: leading `+` dropped, split on `/` when there is one. */
  function RangeParts(v: string): (parts: seq<string>)
    ensures |parts| >= 1
  {
    var s := LStripChars(Strip(v), {'+'});
    if HasChar(s, '/') then StripAll(Split(s, '/')) else [s]
  }

  /** `values_from_maybe_range`: one value per part of a range, never empty. */
  function ValuesFromMaybeRange(v: Json): (vals: seq<real>)
    ensures |vals| >= 1
    ensures v.JStr? ==> |vals| == |RangeParts(v.s)|
    ensures !(v.JBool? || v.JInt? || v.JFloat? || v.JStr?) ==> vals == [0.0]
  {
    match v
    case JBool(b) => [if b then 1.0 else 0.0]
    case JInt(i) => [i as real]
    case JFloat(r) => [r]
    case JStr(s) =>
      var parts := RangeParts(s);
      seq(|parts|, k requires 0 <= k < |parts| => RangePart(parts[k]))
    case _ => [0.0]
  }

  function MinOf(s: seq<real>): (m: real)
    requires |s| >= 1
    ensures m in s
    ensures forall x :: x in s ==> m <= x
  {
    if |s| == 1 then s[0]
    else
      var rest := MinOf(s[1..]);
      assert forall x :: x in s[1..] ==> rest <= x;
      assert forall x :: x in s ==> x == s[0] || x in s[1..];
      if s[0] <= rest then s[0] else rest
  }

  /** `min_from_maybe_range`: the worst case of a possibly ranged value. */
  function MinFromMaybeRange(v: Json): (m: real)
    ensures m in ValuesFromMaybeRange(v)
    ensures forall x :: x in ValuesFromMaybeRange(v) ==> m <= x
  {
    MinOf(ValuesFromMaybeRange(v))
  }

  /** The text of an integer is a plain decimal of that value. */
  lemma {:induction false} DecimalOfInt(i: int)
    ensures IsDecimal(IntToString(i)) && MatchDecimal(IntToString(i)).value.0 == i as real
  {
    var m: nat := if i < 0 then -i else i;
    var d := NatToString(m);
    NatToStringRoundTrip(m);
    AllDigitsRun(d);
    var s := IntToString(i);
    assert IsDigit(d[0]);
    assert d[..|d|] == d && d[|d|..] == [];
    if i < 0 {
      assert s == "-" + d && s[1..] == d;
    } else {
      assert s == d && s[0..] == d;
    }
  }

  lemma {:induction false} AllDigitsRun(d: string)
    requires AllDigits(d)
    ensures DigitRun(d) == |d|
    decreases |d|
  {
    if |d| > 0 {
      AllDigitsRun(d[1..]);
    }
  }

  lemma IntTextShape(i: int)
    ensures var s := IntToString(i);
            |s| > 0 && !IsSpace(s[0]) && !IsSpace(s[|s| - 1]) && s[0] != '+' && !HasChar(s, '/')
  {
    var m: nat := if i < 0 then -i else i;
    var d := NatToString(m);
    var s := IntToString(i);
    assert IsDigit(d[|d| - 1]);
    if i < 0 {
      assert s == "-" + d;
      assert forall k :: 0 < k < |s| ==> s[k] == d[k - 1];
    }
  }

  lemma RangePartsOfTwo(x: string, y: string)
    requires |x| > 0 && |y| > 0 && !IsSpace(x[0]) && !IsSpace(x[|x| - 1]) && !IsSpace(y[0]) && !IsSpace(y[|y| - 1])
    requires x[0] != '+' && !HasChar(x, '/') && !HasChar(y, '/')
    ensures RangeParts(x + "/" + y) == [x, y]
  {
    var s := x + "/" + y;
    RangeTextClean(x, y);
    SplitTwo(x, y);
    StripNoEdge(x);
    StripNoEdge(y);
    assert StripAll([x, y]) == [x, y];
  }

  /** Stripping blanks and a leading `+` leaves `x/y` alone, and it holds a slash. */
  lemma RangeTextClean(x: string, y: string)
    requires |x| > 0 && |y| > 0 && !IsSpace(x[0]) && !IsSpace(y[|y| - 1]) && x[0] != '+'
    ensures LStripChars(Strip(x + "/" + y), {'+'}) == x + "/" + y && HasChar(x + "/" + y, '/')
  {
    var s := x + "/" + y;
    SlashJoinShape(x, y);
    StripNoEdge(s);
    KeepsNoPlus(s);
  }

  lemma SlashJoinShape(x: string, y: string)
    requires |x| > 0 && |y| > 0 && !IsSpace(x[0]) && !IsSpace(y[|y| - 1]) && x[0] != '+'
    ensures var s := x + "/" + y; NoEdgeSpace(s) && s[0] != '+' && HasChar(s, '/')
  {
    var s := x + "/" + y;
    assert s[0] == x[0];
    assert s[|s| - 1] == y[|y| - 1];
    assert s[|x|] == '/';
  }

  lemma KeepsNoPlus(s: string)
    requires |s| > 0 && s[0] != '+'
    ensures LStripChars(s, {'+'}) == s
  {
  }

  lemma SplitTwo(x: string, y: string)
    requires !HasChar(x, '/') && !HasChar(y, '/')
    ensures Split(x + "/" + y, '/') == [x, y]
  {
    assert Join(['/'], [x, y]) == x + "/" + y;
    SplitJoin([x, y], '/');
  }


  lemma ValuesOfTwoParts(s: string, x: string, y: string)
    requires RangeParts(s) == [x, y]
    ensures ValuesFromMaybeRange(JStr(s)) == [RangePart(x), RangePart(y)]
  {
    var parts := RangeParts(s);
    assert ValuesFromMaybeRange(JStr(s)) == seq(|parts|, k requires 0 <= k < |parts| => RangePart(parts[k]));
    TwoPartValues(parts);
  }

  lemma TwoPartValues(parts: seq<string>)
    requires |parts| == 2
    ensures seq(|parts|, k requires 0 <= k < |parts| => RangePart(parts[k])) == [RangePart(parts[0]), RangePart(parts[1])]
  {
  }

  /** A two-valued range such as `-5/-20` yields both values, in order. */
  lemma RangeOfTwo(a: int, b: int)
    ensures ValuesFromMaybeRange(JStr(IntToString(a) + "/" + IntToString(b))) == [a as real, b as real]
  {
    var x, y := IntToString(a), IntToString(b);
    IntTextShape(a);
    IntTextShape(b);
    RangePartsOfTwo(x, y);
    ValuesOfTwoParts(x + "/" + y, x, y);
    DecimalOfInt(a);
    DecimalOfInt(b);
  }

  // ---------------------------------------------------------------------
  // Scoring
  // ---------------------------------------------------------------------

  const EnergyWeight := 100.0
  const StatWeight := 10.0
  const SkillPtsWeight := 2.0
  const HintWeight := 1.0
  const BondWeight := 0.3
  const MoodWeight := 2.0

  /** The stat weights, speed 5 down to guts 1, and their mean. */
  const SpeedWeight := 5.0
  const StaminaWeight := 4.0
  const PowerWeight := 3.0
  const WitWeight := 2.0
  const GutsWeight := 1.0
  const AvgStatWeight := (SpeedWeight + StaminaWeight + PowerWeight + WitWeight + GutsWeight) / 5.0

  /** The effect keys `score_outcome` reads. */
  const EnergyKey := "energy"
  const SpeedKey := "speed"
  const StaminaKey := "stamina"
  const PowerKey := "power"
  const WitKey := "wit"
  const GutsKey := "guts"
  const SkillPtsKey := "skill_pts"
  const BondKey := "bond"
  const MoodKey := "mood"
  const HintsKey := "hints"
  const RandomStatsKey := "random_stats"

  /** `eff.get(key, 0)`. */
  function ValueOf(eff: Json, key: string): Json
  {
    Field(eff, key).GetOr(JInt(0))
  }

  /** `float(v)` where the code applies it to a value read from the effect. */
  function FloatOf(v: Json): Option<real>
  {
    CoerceFloat(v)
  }

  /** `len(eff.get("hints", []))` is defined: the hints are absent or have a length. */
  predicate HintsSized(h: Option<Json>)
  {
    h.None? || h.value.JList? || h.value.JStr? || h.value.JObj?
  }

  function HintLen(h: Option<Json>): nat
    requires HintsSized(h)
  {
    match h
    case None => 0
    case Some(v) => if v.JList? then |v.items| else if v.JStr? then |v.s| else |v.fields|
  }

  /** A `random_stats` dict, when there is one, has a count and an amount that convert to floats. */
  predicate BonusConverts(rs: Option<Json>)
  {
    rs.Some? && rs.value.JObj? ==> FloatOf(ValueOf(rs.value, "count")).Some? && FloatOf(ValueOf(rs.value, "amount")).Some?
  }

  /** The random-stats bonus: the mean stat weight times count times amount, or 0 without a dict. */
  function BonusOf(rs: Option<Json>): real
    requires BonusConverts(rs)
  {
    if rs.Some? && rs.value.JObj? then
      AvgStatWeight * FloatOf(ValueOf(rs.value, "count")).value * FloatOf(ValueOf(rs.value, "amount")).value
    else 0.0
  }

  /** The effects `score_outcome` accepts without raising: a dict whose hints have a length and whose random stats convert. */
  predicate Scorable(eff: Json)
  {
    eff.JObj? && HintsSized(Field(eff, HintsKey)) && BonusConverts(Field(eff, RandomStatsKey))
  }

  function HintCount(eff: Json): nat
    requires Scorable(eff)
  {
    HintLen(Field(eff, HintsKey))
  }

  /** The worst case of `eff.get(key, 0)`. */
  function WorstOf(eff: Json, key: string): real
  {
    MinFromMaybeRange(ValueOf(eff, key))
  }

  /** The weighted worst cases of the five stats, summed in the weights' order. */
  function StatsSum(eff: Json): real
  {
    SpeedWeight * WorstOf(eff, SpeedKey) + StaminaWeight * WorstOf(eff, StaminaKey) + PowerWeight * WorstOf(eff, PowerKey)
    + WitWeight * WorstOf(eff, WitKey) + GutsWeight * WorstOf(eff, GutsKey)
  }

  function RandomStatsBonus(eff: Json): real
    requires Scorable(eff)
  {
    BonusOf(Field(eff, RandomStatsKey))
  }

  /** The worst-case terms `score_outcome` weighs. */
  datatype ScoreTerms = ScoreTerms(energy: real, stats: real, bonus: real, skillPts: real, hints: nat, bond: real, mood: real)

  function TermsOf(eff: Json): ScoreTerms
    requires Scorable(eff)
  {
    ScoreTerms(WorstOf(eff, EnergyKey), StatsSum(eff), RandomStatsBonus(eff), WorstOf(eff, SkillPtsKey),
               HintCount(eff), WorstOf(eff, BondKey), WorstOf(eff, MoodKey))
  }

  /** The weighted total: energy first, then stats, skill points, hints, bond and mood. */
  function Total(t: ScoreTerms): real
  {
    EnergyWeight * t.energy + StatWeight * (t.stats + t.bonus) + SkillPtsWeight * t.skillPts
    + HintWeight * (t.hints as real) + BondWeight * t.bond + MoodWeight * t.mood
  }

  /** `score_outcome`. */
  function ScoreOutcome(eff: Json): real
    requires Scorable(eff)
  {
    Total(TermsOf(eff))
  }

  lemma ValueOfPrepend(e: Json, rest: seq<(string, Json)>, k: string)
    requires k != EnergyKey
    ensures ValueOf(JObj([(EnergyKey, e)] + rest), k) == ValueOf(JObj(rest), k)
    ensures Field(JObj([(EnergyKey, e)] + rest), k) == Field(JObj(rest), k)
  {
    assert ([(EnergyKey, e)] + rest)[1..] == rest;
  }

  /**
   * Energy dominates the score: two outcomes that differ only in their
   * energy differ by 100 times the difference of its worst cases.
   */
  lemma ScoreEnergyTerm(e1: Json, e2: Json, rest: seq<(string, Json)>)
    requires Scorable(JObj([(EnergyKey, e1)] + rest)) && Scorable(JObj([(EnergyKey, e2)] + rest))
    ensures ScoreOutcome(JObj([(EnergyKey, e1)] + rest)) - ScoreOutcome(JObj([(EnergyKey, e2)] + rest)) ==
            EnergyWeight * (MinFromMaybeRange(e1) - MinFromMaybeRange(e2))
    ensures MinFromMaybeRange(e1) > MinFromMaybeRange(e2) ==>
            ScoreOutcome(JObj([(EnergyKey, e1)] + rest)) > ScoreOutcome(JObj([(EnergyKey, e2)] + rest))
  {
    var o1, o2 := JObj([(EnergyKey, e1)] + rest), JObj([(EnergyKey, e2)] + rest);
    var t1, t2 := TermsOf(o1), TermsOf(o2);
    forall k | k != EnergyKey ensures Field(o1, k) == Field(o2, k) {
      ValueOfPrepend(e1, rest, k);
      ValueOfPrepend(e2, rest, k);
    }
    SameOutsideEnergy(o1, o2);
    assert ValueOf(o1, EnergyKey) == e1 && ValueOf(o2, EnergyKey) == e2;
    assert t1 == t2.(energy := t1.energy);
    assert t1.energy == MinFromMaybeRange(e1) && t2.energy == MinFromMaybeRange(e2);
    TotalEnergyTerm(t2, t1.energy);
  }

  lemma TotalEnergyTerm(t: ScoreTerms, e: real)
    ensures Total(t.(energy := e)) - Total(t) == EnergyWeight * (e - t.energy)
  {
  }

  /** Outcomes that agree on every key but energy agree on every other scored term. */
  lemma SameOutsideEnergy(a: Json, b: Json)
    requires Scorable(a) && Scorable(b)
    requires forall k :: k != EnergyKey ==> Field(a, k) == Field(b, k)
    ensures TermsOf(a) == TermsOf(b).(energy := TermsOf(a).energy)
  {
    SameStats(a, b);
    SameWorst(a, b, SkillPtsKey);
    SameWorst(a, b, BondKey);
    SameWorst(a, b, MoodKey);
    assert Field(a, HintsKey) == Field(b, HintsKey);
    assert Field(a, RandomStatsKey) == Field(b, RandomStatsKey);
    SameBonusAndHints(a, b);
  }

  lemma SameWorst(a: Json, b: Json, k: string)
    requires Field(a, k) == Field(b, k)
    ensures WorstOf(a, k) == WorstOf(b, k)
  {
  }

  lemma SameStats(a: Json, b: Json)
    requires forall k :: k != EnergyKey ==> Field(a, k) == Field(b, k)
    ensures StatsSum(a) == StatsSum(b)
  {
    SameWorst(a, b, SpeedKey);
    SameWorst(a, b, StaminaKey);
    SameWorst(a, b, PowerKey);
    SameWorst(a, b, WitKey);
    SameWorst(a, b, GutsKey);
  }

  lemma SameBonusAndHints(a: Json, b: Json)
    requires Scorable(a) && Scorable(b)
    requires Field(a, HintsKey) == Field(b, HintsKey) && Field(a, RandomStatsKey) == Field(b, RandomStatsKey)
    ensures RandomStatsBonus(a) == RandomStatsBonus(b) && HintCount(a) == HintCount(b)
  {
  }

  // ---------------------------------------------------------------------
  // Default preference
  // ---------------------------------------------------------------------

  /** An event's options: label and outcome list, in insertion order. */
  type Options = seq<(string, seq<Json>)>

  predicate AllScorable(options: Options)
  {
    forall i, j :: 0 <= i < |options| && 0 <= j < |options[i].1| ==> Scorable(options[i].1[j])
  }

  /** `score_outcome` on the effects it accepts. */
  function Score(eff: Json): real
  {
    if Scorable(eff) then ScoreOutcome(eff) else 0.0
  }

  /** `min(score(o) for o in outs)`. */
  function WorstCase(outs: seq<Json>, score: Json -> real): (w: real)
    requires |outs| >= 1
    ensures exists j :: 0 <= j < |outs| && w == score(outs[j])
    ensures forall j :: 0 <= j < |outs| ==> w <= score(outs[j])
  {
    if |outs| == 1 then score(outs[0])
    else
      var rest := WorstCase(outs[1..], score);
      assert forall j :: 1 <= j < |outs| ==> outs[j] == outs[1..][j - 1];
      if score(outs[0]) <= rest then score(outs[0]) else rest
  }

  /** The option number of a key: its digits when it is all digits, else 1. */
  function OptionNumber(key: string): int
  {
    if |key| > 0 && AllDigits(key) then DigitsValue(key) else 1
  }

  /** The loop's (best_key, best_score) after the given options; `None` stands for minus infinity. */
  function DefaultScan(options: Options, score: Json -> real): (r: (int, Option<real>))
  {
    if |options| == 0 then (1, None)
    else
      var acc := DefaultScan(options[..|options| - 1], score);
      var (key, outs) := options[|options| - 1];
      if outs == [] then acc
      else
        var w := WorstCase(outs, score);
        var k := OptionNumber(key);
        if acc.1.None? || w > acc.1.value || (w == acc.1.value && k < acc.0) then (k, Some(w)) else acc
  }

  /** `choose_default_preference`. */
  function DefaultPreference(options: Options): int
  {
    DefaultScan(options, Score).0
  }

  /**
   * `choose_default_preference` picks the option whose worst outcome is
   * best, the lowest option number among equals, skipping options without
   * outcomes, and 1 when no option has any.
   */
  lemma {:induction false} DefaultPreferenceProps(options: Options, score: Json -> real)
    ensures var r := DefaultScan(options, score);
            (r.1.None? <==> forall i :: 0 <= i < |options| ==> options[i].1 == []) &&
            (r.1.None? ==> r.0 == 1) &&
            (r.1.Some? ==> exists i :: 0 <= i < |options| && options[i].1 != [] &&
                             WorstCase(options[i].1, score) == r.1.value && OptionNumber(options[i].0) == r.0) &&
            (forall i :: 0 <= i < |options| && options[i].1 != [] ==>
               r.1.Some? && WorstCase(options[i].1, score) <= r.1.value &&
               (WorstCase(options[i].1, score) == r.1.value ==> r.0 <= OptionNumber(options[i].0)))
    decreases |options|
  {
    if |options| > 0 {
      var n := |options| - 1;
      var prev := options[..n];
      DefaultPreferenceProps(prev, score);
      assert forall i :: 0 <= i < n ==> prev[i] == options[i];
    }
  }

  /** `choose_default_preference`: the loop keeping the best key and score. */
  method ChooseDefaultPreference(options: Options) returns (bestKey: int)
    requires AllScorable(options)
    ensures bestKey == DefaultPreference(options)
  {
    bestKey := 1;
    var bestScore: Option<real> := None;
    var i := 0;
    while i < |options|
      invariant 0 <= i <= |options|
      invariant (bestKey, bestScore) == DefaultScan(options[..i], Score)
    {
      bestKey, bestScore := ConsiderOption(options, i, Score, bestKey, bestScore);
      i := i + 1;
    }
    assert options[..|options|] == options;
  }

  /** One option of that loop: it wins on a strictly better worst case, or an equal one with a lower number. */
  method ConsiderOption(options: Options, i: nat, score: Json -> real, key0: int, score0: Option<real>)
    returns (bestKey: int, bestScore: Option<real>)
    requires i < |options|
    requires (key0, score0) == DefaultScan(options[..i], score)
    ensures (bestKey, bestScore) == DefaultScan(options[..i + 1], score)
  {
    assert options[..i + 1][..i] == options[..i];
    bestKey, bestScore := key0, score0;
    var (key, outs) := options[i];
    if outs != [] {
      var worst := WorstCase(outs, score);
      var k := OptionNumber(key);
      if bestScore.None? || worst > bestScore.value || (worst == bestScore.value && k < bestKey) {
        bestScore := Some(worst);
        bestKey := k;
      }
    }
  }

  // ---------------------------------------------------------------------
  // Support defaults argument
  // ---------------------------------------------------------------------

  /** One `Name-RAR-ATTR` chunk, split from the end so that hyphens stay in the name. */
  function SupportDefaultChunk(chunk: string): (r: Option<(string, (string, string))>)
    ensures r.Some? ==> r.value.0 != ""
  {
    var parts := StripAll(Split(chunk, '-'));
    if |parts| < 3 then None
    else
      var name := Strip(Join("-", parts[..|parts| - 2]));
      if name == "" then None
      else Some((Lower(name), (parts[|parts| - 2], parts[|parts| - 1])))
  }

  /** The non-blank stripped chunks of `raw.split("|")`. */
  function Chunks(raw: string): seq<string>
  {
    Filter(StripAll(Split(raw, '|')), (c: string) => c != "")
  }

  function SupportDefaultsOf(chunks: seq<string>): (m: Dicts.Dict<string, (string, string)>)
    ensures Dicts.UniqueKeys(m)
  {
    if |chunks| == 0 then []
    else
      var prev := SupportDefaultsOf(chunks[..|chunks| - 1]);
      match SupportDefaultChunk(chunks[|chunks| - 1])
      case None => prev
      case Some(entry) =>
        Dicts.AssignProps(prev, entry.0, entry.1);
        Dicts.Assign(prev, entry.0, entry.1)
  }

  /** `parse_support_defaults`: lower-cased name to (rarity, attribute); later chunks win. */
  function ParseSupportDefaults(raw: string): (m: Dicts.Dict<string, (string, string)>)
    ensures Dicts.UniqueKeys(m)
  {
    if raw == "" then [] else SupportDefaultsOf(Chunks(raw))
  }

  lemma {:induction false} JoinAvoids(sep: char, parts: seq<string>, c: char)
    requires sep != c
    requires forall p :: p in parts ==> !HasChar(p, c)
    ensures !HasChar(Join([sep], parts), c)
    decreases |parts|
  {
    if |parts| > 1 {
      JoinAvoids(sep, parts[1..], c);
      var rest := Join([sep], parts[1..]);
      var s := parts[0] + [sep] + rest;
      assert forall k :: 0 <= k < |s| ==> s[k] != c by {
        assert parts[0] in parts;
      assert !HasChar(parts[0], c);
      forall k | 0 <= k < |s| ensures s[k] != c {
          if k < |parts[0]| { assert s[k] == parts[0][k]; }
          else if k == |parts[0]| { assert s[k] == sep; }
          else { assert s[k] == rest[k - |parts[0]| - 1]; }
        }
      }
    }
  }

  /** A field of a support-defaults chunk: no hyphen, no bar, no edge blanks. */
  predicate PlainField(p: string)
  {
    !HasChar(p, '-') && !HasChar(p, '|') && NoEdgeSpace(p)
  }

  lemma StripAllIdentity(all: seq<string>)
    requires forall i :: 0 <= i < |all| ==> NoEdgeSpace(all[i])
    ensures StripAll(all) == all
  {
    forall i | 0 <= i < |all| ensures Strip(all[i]) == all[i] {
      StripNoEdge(all[i]);
    }
  }

  /**
   * A chunk whose name has hyphens in it keeps the whole name: the last two
   * hyphen-separated fields are the rarity and the attribute.
   */
  lemma ChunkOfHyphenated(all: seq<string>)
    requires |all| >= 3
    requires forall i :: 0 <= i < |all| ==> PlainField(all[i])
    requires Join("-", all[..|all| - 2]) != "" && NoEdgeSpace(Join("-", all[..|all| - 2]))
    ensures SupportDefaultChunk(Join("-", all)) == Some((Lower(Join("-", all[..|all| - 2])), (all[|all| - 2], all[|all| - 1])))
  {
    assert forall p :: p in all ==> !HasChar(p, '-') by {
      forall p | p in all ensures !HasChar(p, '-') {
        var i :| 0 <= i < |all| && all[i] == p;
      }
    }
    var chunk := Join("-", all);
    SplitJoin(all, '-');
    assert Split(chunk, '-') == all;
    StripAllIdentity(all);
    StripNoEdge(Join("-", all[..|all| - 2]));
    ChunkOf(chunk, all, Join("-", all[..|all| - 2]));
  }

  lemma ChunkOf(chunk: string, parts: seq<string>, name: string)
    requires StripAll(Split(chunk, '-')) == parts && |parts| >= 3
    requires Strip(Join("-", parts[..|parts| - 2])) == name && name != ""
    ensures SupportDefaultChunk(chunk) == Some((Lower(name), (parts[|parts| - 2], parts[|parts| - 1])))
  {
    var ps := StripAll(Split(chunk, '-'));
    assert ps == parts;
    assert Strip(Join("-", ps[..|ps| - 2])) == name;
  }

  /** A blank-free chunk without `|` is the only chunk of the argument. */
  lemma SingleChunk(raw: string)
    requires raw != "" && !HasChar(raw, '|') && NoEdgeSpace(raw)
    ensures Chunks(raw) == [raw]
  {
    assert Split(raw, '|') == [raw] by {
      assert Find(raw, '|') == |raw|;
    }
    StripNoEdge(raw);
    assert StripAll([raw]) == [raw];
    assert [raw][1..] == [];
  }

  /** An argument of one such chunk maps the lower-cased name, hyphens included, to its rarity and attribute. */
  lemma SupportDefaultsHyphenatedName(all: seq<string>)
    requires |all| >= 3
    requires forall i :: 0 <= i < |all| ==> PlainField(all[i])
    requires Join("-", all[..|all| - 2]) != "" && NoEdgeSpace(Join("-", all[..|all| - 2]))
    requires NoEdgeSpace(Join("-", all))
    ensures ParseSupportDefaults(Join("-", all)) == [(Lower(Join("-", all[..|all| - 2])), (all[|all| - 2], all[|all| - 1]))]
  {
    var raw := Join("-", all);
    ChunkOfHyphenated(all);
    JoinedFieldsChunk(all);
    SingleChunk(raw);
    ParseOneChunk(raw, (Lower(Join("-", all[..|all| - 2])), (all[|all| - 2], all[|all| - 1])));
  }

  lemma JoinedFieldsChunk(all: seq<string>)
    requires |all| >= 1
    requires forall i :: 0 <= i < |all| ==> PlainField(all[i])
    ensures !HasChar(Join("-", all), '|')
    ensures |all| >= 2 ==> Join("-", all) != ""
  {
    assert forall p :: p in all ==> !HasChar(p, '|') by {
      forall p | p in all ensures !HasChar(p, '|') {
        var i :| 0 <= i < |all| && all[i] == p;
      }
    }
    JoinAvoids('-', all, '|');
    if |all| > 1 {
      assert |Join("-", all)| >= 1 by {
        assert Join("-", all) == all[0] + "-" + Join("-", all[1..]);
      }
    }
  }

  lemma ParseOneChunk(raw: string, entry: (string, (string, string)))
    requires raw != "" && Chunks(raw) == [raw] && SupportDefaultChunk(raw) == Some(entry)
    ensures ParseSupportDefaults(raw) == [entry]
  {
    assert [raw][..0] == [];
    assert SupportDefaultsOf([raw]) == Dicts.Assign([], entry.0, entry.1);
    var empty: Dicts.Dict<string, (string, string)> := [];
    assert Dicts.IndexOfKey(empty, entry.0) == 0;
  }

  // ---------------------------------------------------------------------
  // Option labels
  // ---------------------------------------------------------------------

  /** The characters of `\w` on ASCII text. */
  predicate IsWordChar(c: char)
  {
    IsLetter(c) || IsDigit(c) || c == '_'
  }

  /** `\boption\s*<d>\b` matches at position `i` of `l`. */
  predicate OptionAt(l: string, i: nat, d: char)
  {
    i + 6 <= |l| && (i == 0 || !IsWordChar(l[i - 1])) && l[i..i + 6] == "option" &&
    var rest := LStrip(l[i + 6..]);
    |rest| > 0 && rest[0] == d && (|rest| == 1 || !IsWordChar(rest[1]))
  }

  predicate HasOptionNumber(l: string, d: char)
  {
    exists i: nat :: i + 6 <= |l| && OptionAt(l, i, d)
  }

  /** `(\d+)\s*[.)]?$` at the start of `t`: the digits. */
  function DigitsLabel(t: string): (r: Option<string>)
    ensures r.Some? ==> |r.value| > 0 && AllDigits(r.value)
  {
    var n := DigitRun(t);
    if n == 0 then None
    else
      var rest := LStrip(t[n..]);
      if rest == "" || rest == "." || rest == ")" then Some(t[..n]) else None
  }

  /** `^(?:no\.?\s*)?(\d+)\s*[.)]?$`: the number of a numbered label. */
  function NumberLabel(l: string): (r: Option<string>)
    ensures r.Some? ==> |r.value| > 0 && AllDigits(r.value)
  {
    if StartsWith(l, "no") then
      var t := l[2..];
      DigitsLabel(LStrip(if |t| > 0 && t[0] == '.' then t[1..] else t))
    else DigitsLabel(l)
  }

  /** `normalize_label`: top, mid or bot, or the bare number of a numbered label; top when nothing applies. */
  function NormalizeLabel(text: string): (r: string)
    ensures r == "top" || r == "mid" || r == "bot" || (|r| > 0 && AllDigits(r))
  {
    var l := Lower(Strip(text));
    if Contains(l, "top") || l == "1" then "top"
    else if Contains(l, "mid") || Contains(l, "middle") || l == "2" then "mid"
    else if Contains(l, "bot") || Contains(l, "bottom") || l == "3" then "bot"
    else if HasOptionNumber(l, '1') then "top"
    else if HasOptionNumber(l, '2') then "mid"
    else if HasOptionNumber(l, '3') then "bot"
    else NumberLabel(l).GetOr("top")
  }

  lemma {:induction false} DigitsContainNoWord(s: string, w: string)
    requires AllDigits(s)
    requires |w| > 0 && !IsDigit(w[0])
    ensures !Contains(s, w)
    decreases |s|
  {
    if |s| > 0 {
      DigitsContainNoWord(s[1..], w);
    }
  }

  lemma {:induction false} LowerOfDigits(s: string)
    requires AllDigits(s)
    ensures Lower(s) == s
    decreases |s|
  {
    if |s| > 0 {
      LowerOfDigits(s[1..]);
    }
  }

  /** A digit string is its own lower-cased, stripped form. */
  lemma DigitsClean(s: string)
    requires |s| > 0 && AllDigits(s)
    ensures Lower(Strip(s)) == s
  {
    assert !IsSpace(s[0]) && !IsSpace(s[|s| - 1]);
    StripNoEdge(s);
    LowerOfDigits(s);
  }

  /** A digit string holds no position word. */
  lemma DigitsNoWords(s: string)
    requires AllDigits(s)
    ensures !Contains(s, "top") && !Contains(s, "mid") && !Contains(s, "middle") && !Contains(s, "bot") && !Contains(s, "bottom")
  {
    DigitsNoWord(s, "top");
    DigitsNoWord(s, "mid");
    DigitsNoWord(s, "middle");
    DigitsNoWord(s, "bot");
    DigitsNoWord(s, "bottom");
  }

  lemma DigitsNoWord(s: string, w: string)
    requires AllDigits(s) && w in ["top", "mid", "middle", "bot", "bottom"]
    ensures !Contains(s, w)
  {
    assert w[0] in "tmb";
    DigitsContainNoWord(s, w);
  }

  lemma DigitsNoOption(s: string)
    requires AllDigits(s)
    ensures forall d :: !HasOptionNumber(s, d)
  {
    forall i: nat, d | i + 6 <= |s| ensures !OptionAt(s, i, d) {
      assert IsDigit(s[i]);
      assert s[i..i + 6][0] == s[i];
    }
  }

  lemma DigitsOwnNumber(s: string)
    requires |s| > 0 && AllDigits(s)
    ensures NumberLabel(s) == Some(s)
  {
    assert IsDigit(s[0]);
    assert !StartsWith(s, "no");
    AllDigitsRun(s);
    assert s[..|s|] == s;
    assert s[|s|..] == [];
  }

  /** A digit label: 1, 2 and 3 are top, mid and bot; other numbers stay as they are. */
  lemma NormalizeDigits(s: string)
    requires |s| > 0 && AllDigits(s)
    ensures NormalizeLabel(s) == if s == "1" then "top" else if s == "2" then "mid" else if s == "3" then "bot" else s
  {
    DigitsClean(s);
    DigitsNoWords(s);
    DigitsNoOption(s);
    DigitsOwnNumber(s);
  }

  /** Numbered labels: 1, 2 and 3 are top, mid and bot; other numbers stay as they are. */
  lemma NormalizeNumberLabel(n: nat)
    ensures NormalizeLabel(NatToString(n)) ==
            if n == 1 then "top" else if n == 2 then "mid" else if n == 3 then "bot" else NatToString(n)
  {
    var s := NatToString(n);
    NormalizeDigits(s);
    NatToStringRoundTrip(n);
    if n == 1 {
      assert s == "1";
    } else if n == 2 {
      assert s == "2";
    } else if n == 3 {
      assert s == "3";
    } else {
      assert s != "1" && s != "2" && s != "3";
    }
  }

  // ---------------------------------------------------------------------
  // Effect values
  // ---------------------------------------------------------------------

  /** `_to_int_if_plain_number`: numbers become ints, `+15` becomes 15, ranges are kept (stripped). */
  function ToIntIfPlainNumber(v: Json): (r: Json)
  {
    match v
    case JBool(b) => JInt(if b then 1 else 0)
    case JInt(i) => JInt(i)
    case JFloat(x) => JInt(TruncReal(x))
    case JStr(s) =>
      var t := Strip(s);
      if HasChar(t, '/') then JStr(t)
      else
        var u := if StartsWith(t, "+") then t[1..] else t;
        if IsIntLiteral(u) then JInt(IntLiteralValue(u)) else v
    case _ => v
  }

  /** Integer text, signed or not, converts to its value, and a range keeps its stripped text. */
  lemma PlainNumberText(i: int, s: string)
    ensures ToIntIfPlainNumber(JStr(IntToString(i))) == JInt(i)
    ensures i >= 0 ==> ToIntIfPlainNumber(JStr("+" + IntToString(i))) == JInt(i)
    ensures HasChar(Strip(s), '/') ==> ToIntIfPlainNumber(JStr(s)) == JStr(Strip(s))
  {
    ParseIntToString(i);
    IntTextShape(i);
    var t := IntToString(i);
    StripNoEdge(t);
    assert !StartsWith(t, "+");
    if i >= 0 {
      var p := "+" + t;
      assert !IsSpace(p[0]) && p[|p| - 1] == t[|t| - 1];
      StripNoEdge(p);
      assert StartsWith(p, "+") && p[1..] == t;
      assert !HasChar(p, '/') by {
        forall k | 0 <= k < |p| ensures p[k] != '/' { if k > 0 { assert p[k] == t[k - 1]; } }
      }
    }
  }

  /** Converting twice is converting once. */
  lemma PlainNumberIdempotent(v: Json)
    ensures ToIntIfPlainNumber(ToIntIfPlainNumber(v)) == ToIntIfPlainNumber(v)
  {
    if v.JStr? {
      var t := Strip(v.s);
      StripNoEdge(t);
    }
  }

  // ---------------------------------------------------------------------
  // Export normalisation
  // ---------------------------------------------------------------------

  /**
   * The three status patterns of the export normaliser, as oracles on the
   * stripped status text: the energy-limit amount, mood up, mood down.
   */
  datatype StatusPatterns = StatusPatterns(energyMax: string -> Option<int>, moodUp: string -> bool, moodDown: string -> bool)

  const NumKeys: seq<string> := ["energy", "energy_max", "skill_pts", "bond", "speed", "stamina", "power", "guts", "wit", "mood"]

  /** The first loop of `_normalize_effect_for_export`: each listed key present gets its value converted. */
  function ConvertNumbers(eff: Json, keys: seq<string>): (r: Json)
    requires eff.JObj?
    ensures r.JObj?
  {
    if |keys| == 0 then eff
    else
      var prev := ConvertNumbers(eff, keys[..|keys| - 1]);
      var k := keys[|keys| - 1];
      match Field(prev, k)
      case None => prev
      case Some(v) => SetField(prev, k, ToIntIfPlainNumber(v))
  }

  /** A field's value converted, when there is one. */
  function ConvertedField(f: Option<Json>): Option<Json>
  {
    if f.Some? then Some(ToIntIfPlainNumber(f.value)) else None
  }

  /**
   * After the conversion loop, a listed key reads its old value converted
   * (once, even when listed twice), and every other key reads as before.
   */
  lemma {:induction false} ConvertNumbersFields(eff: Json, keys: seq<string>, k: string)
    requires eff.JObj?
    ensures Field(ConvertNumbers(eff, keys), k) == if k in keys then ConvertedField(Field(eff, k)) else Field(eff, k)
    decreases |keys|
  {
    if |keys| > 0 {
      var init := keys[..|keys| - 1];
      var last := keys[|keys| - 1];
      var prev := ConvertNumbers(eff, init);
      ConvertNumbersFields(eff, init, k);
      ConvertNumbersFields(eff, init, last);
      assert k in keys <==> k in init || k == last;
      if Field(prev, last).Some? {
        FieldAfterSet(prev, last, ToIntIfPlainNumber(Field(prev, last).value), k);
        PlainNumberIdempotent(Field(eff, last).value);
      }
    }
  }

  /** The conversion loop keeps one pair per key. */
  lemma {:induction false} ConvertNumbersUnique(eff: Json, keys: seq<string>)
    requires eff.JObj? && Dicts.UniqueKeys(eff.fields)
    ensures Dicts.UniqueKeys(ConvertNumbers(eff, keys).fields)
    decreases |keys|
  {
    if |keys| > 0 {
      var prev := ConvertNumbers(eff, keys[..|keys| - 1]);
      ConvertNumbersUnique(eff, keys[..|keys| - 1]);
      var k := keys[|keys| - 1];
      if Field(prev, k).Some? {
        SetFieldUnique(prev, k, ToIntIfPlainNumber(Field(prev, k).value));
      }
    }
  }

  /** Appends the parts not seen yet, keeping first-seen order. */
  function AddUnique(acc: seq<string>, parts: seq<string>): (r: seq<string>)
    ensures forall x :: x in r <==> x in acc || x in parts
    ensures (forall i, j :: 0 <= i < j < |acc| ==> acc[i] != acc[j]) ==> forall i, j :: 0 <= i < j < |r| ==> r[i] != r[j]
    ensures |r| >= |acc| && r[..|acc|] == acc
  {
    if |parts| == 0 then acc
    else
      var prev := AddUnique(acc, parts[..|parts| - 1]);
      var p := parts[|parts| - 1];
      assert forall x :: x in parts <==> x in parts[..|parts| - 1] || x == p;
      if p in prev then prev else prev + [p]
  }

  /** The non-blank stripped `/`-parts of one hint. */
  function HintParts(hint: Json): seq<string>
  {
    Filter(StripAll(Split(ScalarText(hint), '/')), (p: string) => p != "")
  }

  /** Every `/`-part of every hint, in order. */
  function AllHintParts(hints: seq<Json>): seq<string>
  {
    if |hints| == 0 then [] else AllHintParts(hints[..|hints| - 1]) + HintParts(hints[|hints| - 1])
  }

  /** The hint list flattened on `/`, duplicates dropped in first-seen order. */
  function FlattenHints(hints: seq<Json>): (r: seq<string>)
    ensures forall i, j :: 0 <= i < j < |r| ==> r[i] != r[j]
    ensures forall x :: x in r <==> x in AllHintParts(hints)
  {
    if |hints| == 0 then []
    else AddUnique(FlattenHints(hints[..|hints| - 1]), HintParts(hints[|hints| - 1]))
  }

  function TextValues(xs: seq<string>): (r: seq<Json>)
    ensures |r| == |xs|
    ensures forall i :: 0 <= i < |xs| ==> r[i] == JStr(xs[i])
  {
    seq(|xs|, i requires 0 <= i < |xs| => JStr(xs[i]))
  }

  /** The stripped status text, when `status` is a string that is not blank. */
  function StatusText(out: Json): Option<string>
  {
    match Field(out, "status")
    case Some(JStr(text)) => if Strip(text) == "" then None else Some(Strip(text))
    case _ => None
  }

  /**
   * What key `k` reads after the status rewrites for status text `st`, given
   * what it read before: the energy limit found in the text; mood +1 or -1;
   * `status` dropped after a mood rewrite, or after an energy-limit rewrite
   * when there is no `statuses` key; anything else unchanged.
   */
  function StatusField(st: string, rx: StatusPatterns, hasStatuses: bool, k: string, before: Option<Json>): Option<Json>
  {
    if k == "energy_max" && rx.energyMax(st).Some? then Some(JInt(rx.energyMax(st).value))
    else if k == "mood" && rx.moodUp(st) then Some(JInt(1))
    else if k == "mood" && rx.moodDown(st) then Some(JInt(-1))
    else if k == "status" && (rx.moodUp(st) || rx.moodDown(st) || (rx.energyMax(st).Some? && !hasStatuses)) then None
    else before
  }

  /** Rewrites driven by the status text: the energy limit, then mood up or down. */
  function ApplyStatus(out: Json, rx: StatusPatterns): (r: Json)
    requires out.JObj?
    ensures r.JObj?
    ensures StatusText(out).None? ==> r == out
  {
    match Field(out, "status")
    case Some(JStr(text)) =>
      if Strip(text) == "" then out
      else
        var st := Strip(text);
        var afterEnergy :=
          match rx.energyMax(st)
          case None => out
          case Some(n) =>
            var o := SetField(out, "energy_max", JInt(n));
            if !HasField(o, "statuses") then PopField(o, "status") else o;
        if rx.moodUp(st) then PopField(SetField(afterEnergy, "mood", JInt(1)), "status")
        else if rx.moodDown(st) then PopField(SetField(afterEnergy, "mood", JInt(-1)), "status")
        else afterEnergy
    case _ => out
  }

  /**
   * Key by key, the status rewrites give `StatusField` of the old value, and
   * nothing when there is no status text; one pair per key is kept.
   */
  lemma ApplyStatusFields(out: Json, rx: StatusPatterns, k: string)
    requires out.JObj? && Dicts.UniqueKeys(out.fields)
    ensures Dicts.UniqueKeys(ApplyStatus(out, rx).fields)
    ensures Field(ApplyStatus(out, rx), k) ==
            if StatusText(out).Some? then StatusField(StatusText(out).value, rx, HasField(out, "statuses"), k, Field(out, k))
            else Field(out, k)
  {
    if StatusText(out).Some? {
      var st := StatusText(out).value;
      var afterEnergy := out;
      if rx.energyMax(st).Some? {
        var o := SetField(out, "energy_max", JInt(rx.energyMax(st).value));
        SetFieldUnique(out, "energy_max", JInt(rx.energyMax(st).value));
        FieldAfterSet(out, "energy_max", JInt(rx.energyMax(st).value), k);
        FieldAfterSet(out, "energy_max", JInt(rx.energyMax(st).value), "statuses");
        if !HasField(o, "statuses") {
          PopFieldUnique(o, "status");
          FieldAfterPop(o, "status", k);
          afterEnergy := PopField(o, "status");
        } else {
          afterEnergy := o;
        }
      }
      if rx.moodUp(st) || rx.moodDown(st) {
        var mood := JInt(if rx.moodUp(st) then 1 else -1);
        var m := SetField(afterEnergy, "mood", mood);
        SetFieldUnique(afterEnergy, "mood", mood);
        FieldAfterSet(afterEnergy, "mood", mood, k);
        PopFieldUnique(m, "status");
        FieldAfterPop(m, "status", k);
      }
    }
  }

  /** The values the export drops: `None`, `""`, `[]` and `{}`. */
  predicate IsEmptyValue(v: Json)
  {
    v == JNull || v == JStr("") || v == JList([]) || v == JObj([])
  }

  /** A pair the export keeps: its value is not empty. */
  predicate Kept(f: (string, Json))
  {
    !IsEmptyValue(f.1)
  }

  /** `_normalize_effect_for_export`. */
  function NormalizeEffect(eff: Json, rx: StatusPatterns): (r: Json)
    requires eff.JObj?
    ensures r.JObj?
    ensures forall i :: 0 <= i < |r.fields| ==> !IsEmptyValue(r.fields[i].1)
  {
    var out := ApplyStatus(FlatHints(ConvertNumbers(eff, NumKeys)), rx);
    JObj(Filter(out.fields, Kept))
  }

  /** The hint list, when there is one, flattened to its distinct texts. */
  function FlatHints(j: Json): (r: Json)
    requires j.JObj?
    ensures r.JObj?
  {
    match Field(j, "hints")
    case Some(JList(hs)) => SetField(j, "hints", JList(TextValues(FlattenHints(hs))))
    case _ => j
  }

  /** A value the export keeps, or nothing. */
  function DropEmpty(f: Option<Json>): Option<Json>
  {
    if f.Some? && !IsEmptyValue(f.value) then f else None
  }

  /**
   * What key `k` reads before the status rewrites: a hint list flattened to
   * distinct texts, a numeric key converted, anything else as it was.
   */
  function PreStatusField(eff: Json, k: string): Option<Json>
  {
    if k == "hints" && Field(eff, "hints").Some? && Field(eff, "hints").value.JList? then
      Some(JList(TextValues(FlattenHints(Field(eff, "hints").value.items))))
    else if k in NumKeys then ConvertedField(Field(eff, k))
    else Field(eff, k)
  }

  /** None of `hints`, `status` and `statuses` is converted as a number. */
  lemma NumKeysExclude()
    ensures "hints" !in NumKeys && "status" !in NumKeys && "statuses" !in NumKeys
  {
    forall i | 0 <= i < |NumKeys|
      ensures NumKeys[i] != "hints" && NumKeys[i] != "status" && NumKeys[i] != "statuses"
    {
      assert NumKeys[i][0] != 'h';
      assert |NumKeys[i]| != 8;
      assert NumKeys[i][0] != 's' || |NumKeys[i]| != 6;
    }
  }

  /** The steps before the status rewrites: key by key, `PreStatusField`, with one pair per key kept. */
  lemma PreStatusFields(eff: Json, k: string)
    requires eff.JObj? && Dicts.UniqueKeys(eff.fields)
    ensures Dicts.UniqueKeys(FlatHints(ConvertNumbers(eff, NumKeys)).fields)
    ensures Field(FlatHints(ConvertNumbers(eff, NumKeys)), k) == PreStatusField(eff, k)
  {
    var converted := ConvertNumbers(eff, NumKeys);
    ConvertNumbersUnique(eff, NumKeys);
    ConvertNumbersFields(eff, NumKeys, k);
    ConvertNumbersFields(eff, NumKeys, "hints");
    NumKeysExclude();
    if Field(converted, "hints").Some? && Field(converted, "hints").value.JList? {
      var v := JList(TextValues(FlattenHints(Field(converted, "hints").value.items)));
      SetFieldUnique(converted, "hints", v);
      FieldAfterSet(converted, "hints", v, k);
    }
  }

  /**
   * Key by key, the exported effect reads the converted or flattened value,
   * rewritten by the status text (read from the input, which the earlier
   * steps leave alone), and nothing where that value is empty.
   */
  lemma NormalizeEffectFields(eff: Json, rx: StatusPatterns, k: string)
    requires eff.JObj? && Dicts.UniqueKeys(eff.fields)
    ensures Field(NormalizeEffect(eff, rx), k) ==
            DropEmpty(if StatusText(eff).Some?
                      then StatusField(StatusText(eff).value, rx, HasField(eff, "statuses"), k, PreStatusField(eff, k))
                      else PreStatusField(eff, k))
  {
    var pre := FlatHints(ConvertNumbers(eff, NumKeys));
    PreStatusFields(eff, k);
    PreStatusFields(eff, "status");
    PreStatusFields(eff, "statuses");
    NumKeysExclude();
    assert StatusText(pre) == StatusText(eff);
    ApplyStatusFields(pre, rx, k);
    GetFiltered(ApplyStatus(pre, rx).fields, Kept, k);
  }

  // ---------------------------------------------------------------------
  // The Gametora effect list
  // ---------------------------------------------------------------------

  /** `f"{n:+d}"`. */
  function Signed(n: int): string
  {
    if n >= 0 then "+" + NatToString(n) else IntToString(n)
  }

  /** `_format_hint_entry`: the skill name with its level, `+` added to an unsigned number. */
  function FormatHintEntry(name: string, amount: Json): string
  {
    if amount == JNull || amount == JStr("") then Strip(name)
    else
      var level :=
        match amount
        case JBool(b) => Signed(if b then 1 else 0)
        case JInt(i) => Signed(i)
        case JFloat(x) => Signed(TruncReal(x))
        case _ =>
          var s := Strip(ScalarText(amount));
          if |s| > 0 && AllDigits(s) then "+" + s else s;
      Strip(name) + " (" + level + ")"
  }

  /** The effect keys of the plain stat, energy, points, bond and mood codes. */
  function CodeKey(t: string): Option<string>
  {
    if t == "sp" then Some("speed")
    else if t == "st" then Some("stamina")
    else if t == "po" then Some("power")
    else if t == "gu" then Some("guts")
    else if t == "in" then Some("wit")
    else if t == "en" then Some("energy")
    else if t == "pt" then Some("skill_pts")
    else if t == "bo" then Some("bond")
    else if t == "me" then Some("energy_max")
    else if t == "mo" then Some("mood")
    else None
  }

  function SkillName(skills: Dicts.Dict<string, string>, sid: string): string
  {
    Dicts.Lookup(skills, sid).GetOr("Skill ID: " + sid)
  }

  /** The hint list `setdefault` finds: the stored list, or a fresh empty one. */
  function HintsOf(cur: Json): seq<Json>
  {
    match Field(cur, "hints") case Some(JList(items)) => items case _ => []
  }

  /** `cur.setdefault("hints", []).append(h)`: `h` goes at the end of the hint list and no other key changes. */
  function AppendHint(cur: Json, h: string): (r: Json)
    requires cur.JObj?
    ensures r.JObj?
    ensures Field(r, "hints") == Some(JList(HintsOf(cur) + [JStr(h)]))
    ensures forall k :: k != "hints" ==> Field(r, k) == Field(cur, k)
  {
    FieldsAfterSet(cur, "hints", JList(HintsOf(cur) + [JStr(h)]));
    SetField(cur, "hints", JList(HintsOf(cur) + [JStr(h)]))
  }

  /** The hint text of one roll entry: the skill's name (`d`) with its level (`v`). */
  function RollEntry(s: Json, skills: Dicts.Dict<string, string>): string
  {
    FormatHintEntry(SkillName(skills, ScalarText(Field(s, "d").GetOr(JStr("")))), Field(s, "v").GetOr(JNull))
  }

  /** The roll's hint entries, in order. */
  function RollHints(roll: seq<Json>, skills: Dicts.Dict<string, string>): (r: seq<Json>)
    ensures |r| == |roll|
  {
    if |roll| == 0 then []
    else RollHints(roll[..|roll| - 1], skills) + [JStr(RollEntry(roll[|roll| - 1], skills))]
  }

  /** The hints of an `sr` roll appended one by one. */
  function AppendRoll(cur: Json, roll: seq<Json>, skills: Dicts.Dict<string, string>): (r: Json)
    requires cur.JObj?
    ensures r.JObj?
  {
    if |roll| == 0 then cur
    else AppendHint(AppendRoll(cur, roll[..|roll| - 1], skills), RollEntry(roll[|roll| - 1], skills))
  }

  /**
   * An empty roll changes nothing; otherwise the hint list ends with the
   * roll's entries in order, and no other key changes.
   */
  lemma {:induction false} AppendRollFields(cur: Json, roll: seq<Json>, skills: Dicts.Dict<string, string>)
    requires cur.JObj?
    ensures roll == [] ==> AppendRoll(cur, roll, skills) == cur
    ensures roll != [] ==> Field(AppendRoll(cur, roll, skills), "hints") == Some(JList(HintsOf(cur) + RollHints(roll, skills)))
    ensures forall k :: k != "hints" ==> Field(AppendRoll(cur, roll, skills), k) == Field(cur, k)
    decreases |roll|
  {
    if |roll| > 0 {
      var init := roll[..|roll| - 1];
      AppendRollFields(cur, init, skills);
      var prev := AppendRoll(cur, init, skills);
      var entry := JStr(RollEntry(roll[|roll| - 1], skills));
      var r := AppendRoll(cur, roll, skills);
      assert r == AppendHint(prev, RollEntry(roll[|roll| - 1], skills));
      assert HintsOf(prev) == HintsOf(cur) + RollHints(init, skills);
      assert RollHints(roll, skills) == RollHints(init, skills) + [entry];
      ConcatAssoc(HintsOf(cur), RollHints(init, skills), [entry]);
      forall k | k != "hints" ensures Field(r, k) == Field(cur, k) {
        assert Field(r, k) == Field(prev, k);
      }
    }
  }

  /** An item of the effect list the parser handles without raising: a dict, and an `sr` roll a list of dicts. */
  predicate WellFormedItem(item: Json)
  {
    item.JObj? &&
    (Field(item, "t") == Some(JStr("sr")) ==>
       var d := Field(item, "d").GetOr(JNull);
       !Truthy(d) || (d.JList? && forall k :: 0 <= k < |d.items| ==> d.items[k].JObj?))
  }

  /** The parser's state: finished outcomes, the current effect, and whether it holds data. */
  datatype EffectScan = EffectScan(outcomes: seq<Json>, cur: Json, hasData: bool)

  predicate ScanInv(s: EffectScan)
  {
    s.cur.JObj?
  }

  /** `push_current`: the current effect is exported when it holds data (or when forced). */
  function PushCurrent(s: EffectScan, force: bool, rx: StatusPatterns): (r: EffectScan)
    requires ScanInv(s)
    ensures ScanInv(r) && r.cur == JObj([]) && !r.hasData
  {
    EffectScan(if s.hasData || force then s.outcomes + [NormalizeEffect(s.cur, rx)] else s.outcomes, JObj([]), false)
  }

  /** One item of the effect list. */
  function StepItem(s: EffectScan, item: Json, skills: Dicts.Dict<string, string>, statuses: Dicts.Dict<string, string>,
                    rx: StatusPatterns): (r: EffectScan)
    requires ScanInv(s) && WellFormedItem(item)
    ensures ScanInv(r)
  {
    var t := Field(item, "t").GetOr(JNull);
    var v := Field(item, "v").GetOr(JNull);
    var d := Field(item, "d").GetOr(JNull);
    if t == JStr("di") then PushCurrent(s, false, rx)
    else if t.JStr? && CodeKey(t.s).Some? then
      EffectScan(s.outcomes, SetField(s.cur, CodeKey(t.s).value, ToIntIfPlainNumber(v)), true)
    else if t == JStr("sk") then
      var sid := if Truthy(d) then ScalarText(d) else "";
      EffectScan(s.outcomes, AppendHint(s.cur, FormatHintEntry(SkillName(skills, sid), v)), true)
    else if t == JStr("sr") then
      var roll := if Truthy(d) then d.items else [];
      EffectScan(s.outcomes, AppendRoll(s.cur, roll, skills), s.hasData || |roll| > 0)
    else if t == JStr("se") then
      var sid := ScalarText(d);
      EffectScan(s.outcomes, SetField(s.cur, "status", JStr(Dicts.Lookup(statuses, sid).GetOr("Unknown Status " + sid))), true)
    else if t == JStr("sg") then
      var sid := if Truthy(d) then ScalarText(d) else "";
      EffectScan(s.outcomes, SetField(s.cur, "status", JStr("Obtain " + SkillName(skills, sid))), true)
    else if t == JStr("ha") then
      EffectScan(s.outcomes, SetField(s.cur, "status", JStr("Heal all negative status effects")), true)
    else s
  }

  function ScanItems(items: seq<Json>, skills: Dicts.Dict<string, string>, statuses: Dicts.Dict<string, string>,
                     rx: StatusPatterns): (r: EffectScan)
    requires forall k :: 0 <= k < |items| ==> WellFormedItem(items[k])
    ensures ScanInv(r)
  {
    if |items| == 0 then EffectScan([], JObj([]), false)
    else StepItem(ScanItems(items[..|items| - 1], skills, statuses, rx), items[|items| - 1], skills, statuses, rx)
  }

  /** `parse_effects_from_event_dict` on the event's `r` list. */
  function ParseEffects(items: seq<Json>, skills: Dicts.Dict<string, string>, statuses: Dicts.Dict<string, string>,
                        rx: StatusPatterns): seq<Json>
    requires forall k :: 0 <= k < |items| ==> WellFormedItem(items[k])
  {
    var s := ScanItems(items, skills, statuses, rx);
    PushCurrent(s, s.outcomes == [], rx).outcomes
  }

  function CountDividers(items: seq<Json>): nat
  {
    if |items| == 0 then 0
    else CountDividers(items[..|items| - 1]) + (if Field(items[|items| - 1], "t") == Some(JStr("di")) then 1 else 0)
  }

  /** Only a divider exports; every other item leaves the exported outcomes alone. */
  lemma StepOutcomes(s: EffectScan, item: Json, skills: Dicts.Dict<string, string>,
                     statuses: Dicts.Dict<string, string>, rx: StatusPatterns)
    requires ScanInv(s) && WellFormedItem(item)
    ensures StepItem(s, item, skills, statuses, rx).outcomes ==
            if Field(item, "t") == Some(JStr("di")) then PushCurrent(s, false, rx).outcomes else s.outcomes
  {
  }

  lemma {:induction false} ScanOutcomesBound(items: seq<Json>, skills: Dicts.Dict<string, string>,
                                             statuses: Dicts.Dict<string, string>, rx: StatusPatterns)
    requires forall k :: 0 <= k < |items| ==> WellFormedItem(items[k])
    ensures |ScanItems(items, skills, statuses, rx).outcomes| <= CountDividers(items)
    decreases |items|
  {
    if |items| > 0 {
      var prev := items[..|items| - 1];
      ScanOutcomesBound(prev, skills, statuses, rx);
      StepOutcomes(ScanItems(prev, skills, statuses, rx), items[|items| - 1], skills, statuses, rx);
    }
  }

  /**
   * Every event yields at least one outcome, each an exported effect dict,
   * and at most one per divider plus the last: the effects between two
   * dividers form one outcome.
   */
  lemma ParseEffectsProps(items: seq<Json>, skills: Dicts.Dict<string, string>, statuses: Dicts.Dict<string, string>,
                          rx: StatusPatterns)
    requires forall k :: 0 <= k < |items| ==> WellFormedItem(items[k])
    ensures var r := ParseEffects(items, skills, statuses, rx);
            1 <= |r| <= CountDividers(items) + 1 && AllExported(r)
  {
    var s := ScanItems(items, skills, statuses, rx);
    ScanOutcomesBound(items, skills, statuses, rx);
    ExportedOutcomes(items, skills, statuses, rx);
    PushKeepsExported(s, s.outcomes == [], rx);
  }

  /** Every outcome is an exported effect dict: no empty values left. */
  predicate AllExported(o: seq<Json>)
  {
    forall k :: 0 <= k < |o| ==> o[k].JObj? && forall i :: 0 <= i < |o[k].fields| ==> !IsEmptyValue(o[k].fields[i].1)
  }

  lemma PushKeepsExported(s: EffectScan, force: bool, rx: StatusPatterns)
    requires ScanInv(s) && AllExported(s.outcomes)
    ensures AllExported(PushCurrent(s, force, rx).outcomes)
  {
    if s.hasData || force {
      var o := s.outcomes + [NormalizeEffect(s.cur, rx)];
      assert forall k :: 0 <= k < |s.outcomes| ==> o[k] == s.outcomes[k];
    }
  }

  lemma StepKeepsExported(s: EffectScan, item: Json, skills: Dicts.Dict<string, string>,
                          statuses: Dicts.Dict<string, string>, rx: StatusPatterns)
    requires ScanInv(s) && WellFormedItem(item) && AllExported(s.outcomes)
    ensures AllExported(StepItem(s, item, skills, statuses, rx).outcomes)
  {
    StepOutcomes(s, item, skills, statuses, rx);
    PushKeepsExported(s, false, rx);
  }

  lemma {:induction false} ExportedOutcomes(items: seq<Json>, skills: Dicts.Dict<string, string>,
                                            statuses: Dicts.Dict<string, string>, rx: StatusPatterns)
    requires forall k :: 0 <= k < |items| ==> WellFormedItem(items[k])
    ensures AllExported(ScanItems(items, skills, statuses, rx).outcomes)
    decreases |items|
  {
    if |items| > 0 {
      var prev := items[..|items| - 1];
      assert forall k :: 0 <= k < |prev| ==> prev[k] == items[k];
      ExportedOutcomes(prev, skills, statuses, rx);
      StepKeepsExported(ScanItems(prev, skills, statuses, rx), items[|items| - 1], skills, statuses, rx);
    }
  }

  /** `parse_effects_from_event_dict`: the loop over the effect list. */
  method ParseEffectsFromEventDict(items: seq<Json>, skills: Dicts.Dict<string, string>, statuses: Dicts.Dict<string, string>,
                                   rx: StatusPatterns) returns (outcomes: seq<Json>)
    requires forall k :: 0 <= k < |items| ==> WellFormedItem(items[k])
    ensures outcomes == ParseEffects(items, skills, statuses, rx)
  {
    var s := EffectScan([], JObj([]), false);
    var i := 0;
    while i < |items|
      invariant 0 <= i <= |items|
      invariant s == ScanItems(items[..i], skills, statuses, rx)
    {
      assert items[..i + 1][..i] == items[..i];
      s := StepItem(s, items[i], skills, statuses, rx);
      i := i + 1;
    }
    assert items[..|items|] == items;
    s := PushCurrent(s, s.outcomes == [], rx);
    outcomes := s.outcomes;
  }

  // ---------------------------------------------------------------------
  // Trainee overrides and shared events
  // ---------------------------------------------------------------------

  /** The stat codes of the trainee override arguments. */
  function StatCode(code: string): Option<string>
  {
    if code == "sp" then Some("speed")
    else if code == "st" then Some("stamina")
    else if code == "po" then Some("power")
    else if code == "gu" then Some("guts")
    else if code == "in" then Some("wit")
    else None
  }

  function NameOf(event: Json): Json
  {
    Field(event, "name").GetOr(JNull)
  }

  function OneOutcome(key: string, amount: int): Json
  {
    JList([JObj([(key, JInt(amount))])])
  }

  /** One shared event after the trainee's overrides. */
  function OverrideEvent(event: Json, newYearStat: Option<string>, danceStats: Option<seq<string>>): (r: Json)
    requires event.JObj?
    ensures r.JObj?
  {
    var name := Field(event, "name").GetOr(JStr(""));
    if name == JStr("Dance Lesson") then
      if danceStats.Some? && |danceStats.value| == 2 &&
         StatCode(danceStats.value[0]).Some? && StatCode(danceStats.value[1]).Some? then
        var options := JObj([("1", OneOutcome(StatCode(danceStats.value[0]).value, 10)),
                             ("2", OneOutcome(StatCode(danceStats.value[1]).value, 10))]);
        Rewritten(event, options)
      else event
    else if name == JStr("New Year's Resolutions") && newYearStat.Some? && newYearStat.value != "" &&
            StatCode(newYearStat.value).Some? then
      var options := JObj([("1", OneOutcome(StatCode(newYearStat.value).value, 10)),
                           ("2", OneOutcome("energy", 20)), ("3", OneOutcome("skill_pts", 20))]);
      Rewritten(event, options)
    else event
  }

  function OverrideAll(events: seq<Json>, newYearStat: Option<string>, danceStats: Option<seq<string>>): (r: seq<Json>)
    requires forall k :: 0 <= k < |events| ==> events[k].JObj?
    ensures |r| == |events|
  {
    seq(|events|, k requires 0 <= k < |events| => OverrideEvent(events[k], newYearStat, danceStats))
  }

  /**
   * The overrides keep the list's length, order and names; they touch only
   * "Dance Lesson" and "New Year's Resolutions", and a rewritten event
   * defaults to option 2.
   */
  lemma OverrideProps(events: seq<Json>, newYearStat: Option<string>, danceStats: Option<seq<string>>, k: nat)
    requires forall j :: 0 <= j < |events| ==> events[j].JObj?
    requires k < |events|
    ensures var r := OverrideAll(events, newYearStat, danceStats)[k];
            NameOf(r) == NameOf(events[k]) &&
            (NameOf(events[k]) != JStr("Dance Lesson") && NameOf(events[k]) != JStr("New Year's Resolutions") ==> r == events[k]) &&
            (r != events[k] ==> Field(r, "default_preference") == Some(JInt(2)))
  {
    var e := events[k];
    assert OverrideAll(events, newYearStat, danceStats)[k] == OverrideEvent(e, newYearStat, danceStats);
    forall opts: Json ensures NameOf(Rewritten(e, opts)) == NameOf(e) && Field(Rewritten(e, opts), "default_preference") == Some(JInt(2)) {
      RewrittenProps(e, opts);
    }
  }

  /** An event with new options and option 2 as its default. */
  function Rewritten(e: Json, opts: Json): Json
    requires e.JObj?
  {
    SetField(SetField(e, "options", opts), "default_preference", JInt(2))
  }

  lemma RewrittenProps(e: Json, opts: Json)
    requires e.JObj?
    ensures NameOf(Rewritten(e, opts)) == NameOf(e) && Field(Rewritten(e, opts), "default_preference") == Some(JInt(2))
  {
    FieldAfterSet(e, "options", opts, "name");
    FieldAfterSet(SetField(e, "options", opts), "default_preference", JInt(2), "name");
    FieldAfterSet(SetField(e, "options", opts), "default_preference", JInt(2), "default_preference");
  }

  /** `apply_trainee_overrides`: the loop appending each (possibly rewritten) event. */
  method ApplyTraineeOverrides(events: seq<Json>, newYearStat: Option<string>, danceStats: Option<seq<string>>) returns (result: seq<Json>)
    requires forall k :: 0 <= k < |events| ==> events[k].JObj?
    ensures result == OverrideAll(events, newYearStat, danceStats)
  {
    result := [];
    var i := 0;
    while i < |events|
      invariant 0 <= i <= |events|
      invariant |result| == i
      invariant forall k :: 0 <= k < i ==> result[k] == OverrideEvent(events[k], newYearStat, danceStats)
    {
      result := result + [OverrideEvent(events[i], newYearStat, danceStats)];
      i := i + 1;
    }
  }

  function CardNames(cards: seq<Json>): set<Json>
  {
    set k | 0 <= k < |cards| :: NameOf(cards[k])
  }

  /** `merge_shared_events`: all card events, then the shared events whose name no card event has. */
  function MergeShared(cards: seq<Json>, shared: seq<Json>): seq<Json>
  {
    var names := CardNames(cards);
    cards + Filter(shared, (e: Json) => NameOf(e) !in names)
  }

  /**
   * The merge keeps every card event in order and adds the shared events
   * whose name is new: every added event is such an event, and every such
   * event is added.
   */
  lemma MergeSharedProps(cards: seq<Json>, shared: seq<Json>)
    ensures var r := MergeShared(cards, shared);
            r[..|cards|] == cards &&
            (forall k :: |cards| <= k < |r| ==> r[k] in shared && forall c :: c in cards ==> NameOf(r[k]) != NameOf(c)) &&
            (forall e :: e in shared && (forall c :: c in cards ==> NameOf(e) != NameOf(c)) ==> e in r)
  {
    var names := CardNames(cards);
    var keep := (e: Json) => NameOf(e) !in names;
    var added := Filter(shared, keep);
    FilterSubset(shared, keep);
    var r := MergeShared(cards, shared);
    assert r == cards + added;
    forall k | |cards| <= k < |r| ensures r[k] in shared && forall c :: c in cards ==> NameOf(r[k]) != NameOf(c) {
      assert r[k] == added[k - |cards|];
      assert keep(r[k]);
      assert r[k] in multiset(added);
      assert r[k] in multiset(shared);
      forall c | c in cards ensures NameOf(r[k]) != NameOf(c) {
        var j :| 0 <= j < |cards| && cards[j] == c;
        assert NameOf(cards[j]) in names;
      }
    }
    forall e | e in shared && (forall c :: c in cards ==> NameOf(e) != NameOf(c)) ensures e in r {
      var m :| 0 <= m < |shared| && shared[m] == e;
      assert NameOf(e) !in names;
      FilterComplete(shared, keep, m);
    }
  }

  /** `merge_shared_events`: the loop appending the non-conflicting shared events. */
  method MergeSharedEvents(cards: seq<Json>, shared: seq<Json>) returns (result: seq<Json>)
    ensures result == MergeShared(cards, shared)
  {
    var names := CardNames(cards);
    result := cards;
    var i := 0;
    while i < |shared|
      invariant 0 <= i <= |shared|
      invariant result == cards + Filter(shared[..i], (e: Json) => NameOf(e) !in names)
    {
      assert shared[..i + 1] == shared[..i] + [shared[i]];
      FilterSnoc(shared[..i], shared[i], (e: Json) => NameOf(e) !in names);
      if NameOf(shared[i]) !in names {
        result := result + [shared[i]];
      }
      i := i + 1;
    }
    assert shared[..|shared|] == shared;
  }
}
