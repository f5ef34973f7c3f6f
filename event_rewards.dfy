/**
 * Reward categories of event options (core/utils/event_processor.py): the
 * reward-priority list, the largest energy gain an option's outcomes carry,
 * the categories they touch, and the choice of an option by priority.
 */
module EventRewards {
  import opened Wrappers
  import opened Strings
  import opened JsonValues
  import opened Sorting

  const DefaultRewardPriority: seq<string> := ["skill_pts", "stats", "hints"]
  const ValidCategories: set<string> := {"skill_pts", "hints", "stats", "energy"}

  /** The reward-key alias table; keys outside it have no alias. */
  function RewardAlias(key: string): Option<string>
  {
    if key in {"energy"} then Some("energy")
    else if key in {"skill_pts", "skill_points"} then Some("skill_pts")
    else if key in {"hint", "hints"} then Some("hints")
    else if key in {"speed", "spd", "stamina", "sta", "power", "pwr", "guts", "gut", "wit", "wisdom", "intelligence", "stats"}
    then Some("stats")
    else None
  }

  /** `str(k).strip().lower()` of a dict key. */
  function CleanKey(k: string): string
  {
    Lower(Strip(k))
  }

  // ---------------------------------------------------------------------
  // normalize_reward_priority_list
  // ---------------------------------------------------------------------

  /** The category one raw priority entry stands for, if it is a valid one. */
  function EntryCategory(item: Json): (c: Option<string>)
    ensures c.Some? ==> c.value in ValidCategories
  {
    if !item.JStr? then None
    else
      var key := CleanKey(item.s);
      if key == "" then None
      else
        var mapped := RewardAlias(key).GetOr(key);
        if mapped in ValidCategories then Some(mapped) else None
  }

  /** The present values of `cs`, in first-seen order, each once. */
  function FirstSeen(cs: seq<Option<string>>): (r: seq<string>)
    decreases |cs|
  {
    if cs == [] then []
    else
      var prev := FirstSeen(cs[..|cs| - 1]);
      var c := cs[|cs| - 1];
      if c.Some? && c.value !in prev then prev + [c.value] else prev
  }

  predicate NoDuplicates<T(==)>(s: seq<T>)
  {
    forall a, b :: 0 <= a < b < |s| ==> s[a] != s[b]
  }

  /** `FirstSeen` keeps each value once, and keeps exactly the values present. */
  lemma {:induction false} FirstSeenProps(cs: seq<Option<string>>)
    ensures NoDuplicates(FirstSeen(cs))
    ensures forall c :: c in FirstSeen(cs) <==> Some(c) in cs
    decreases |cs|
  {
    if cs != [] {
      var init := cs[..|cs| - 1];
      FirstSeenProps(init);
      assert cs == init + [cs[|cs| - 1]];
    }
  }

  /** The category of each raw priority entry. */
  function EntryCategories(items: seq<Json>): (cs: seq<Option<string>>)
    ensures |cs| == |items|
    ensures forall k :: 0 <= k < |items| ==> cs[k] == EntryCategory(items[k])
    ensures forall c :: Some(c) in cs ==> c in ValidCategories
  {
    seq(|items|, k requires 0 <= k < |items| => EntryCategory(items[k]))
  }

  /** What `normalize_reward_priority_list` returns. */
  function RewardPriority(raw: Json): seq<string>
  {
    if !raw.JList? then DefaultRewardPriority
    else
      var r := FirstSeen(EntryCategories(raw.items));
      if r == [] then DefaultRewardPriority else r
  }

  /**
   * The normalised priority list is never empty, repeats nothing, holds only
   * valid categories, and (unless it is the default) holds exactly the
   * categories the raw entries name.
   */
  lemma RewardPriorityProps(raw: Json)
    ensures RewardPriority(raw) != [] && NoDuplicates(RewardPriority(raw))
    ensures forall c :: c in RewardPriority(raw) ==> c in ValidCategories
    ensures raw.JList? && RewardPriority(raw) != DefaultRewardPriority ==>
              forall c :: c in RewardPriority(raw) <==> exists k :: 0 <= k < |raw.items| && EntryCategory(raw.items[k]) == Some(c)
  {
    if raw.JList? {
      var cs := EntryCategories(raw.items);
      FirstSeenProps(cs);
      forall c ensures Some(c) in cs <==> exists k :: 0 <= k < |raw.items| && EntryCategory(raw.items[k]) == Some(c) {
        if Some(c) in cs {
          var k :| 0 <= k < |cs| && cs[k] == Some(c);
        }
      }
    }
  }

  /**
   * `normalize_reward_priority_list`: the valid categories the raw list names,
   * aliases resolved, first occurrence kept; the default when nothing is left.
   */
  method NormalizeRewardPriorityList(raw: Json) returns (result: seq<string>)
    ensures result == RewardPriority(raw)
    ensures result != [] && NoDuplicates(result)
    ensures forall c :: c in result ==> c in ValidCategories
  {
    if !raw.JList? {
      RewardPriorityProps(raw);
      return DefaultRewardPriority;
    }
    var items := raw.items;
    ghost var cs := EntryCategories(items);
    var seen: set<string> := {};
    result := [];
    var i := 0;
    while i < |items|
      invariant 0 <= i <= |items|
      invariant result == FirstSeen(cs[..i])
      invariant seen == set c | c in result
    {
      assert cs[..i + 1][..i] == cs[..i];
      var c := EntryCategory(items[i]);
      if c.Some? && c.value !in seen {
        result := result + [c.value];
        seen := seen + {c.value};
      }
      i := i + 1;
    }
    assert cs[..|items|] == cs;
    RewardPriorityProps(raw);
    if result == [] {
      result := DefaultRewardPriority;
    }
  }

  // ---------------------------------------------------------------------
  // max_positive_energy
  // ---------------------------------------------------------------------

  function Max(a: nat, b: nat): nat
  {
    if a >= b then a else b
  }

  /** The gain one `key: value` pair records, when the key is `energy` and the value positive. */
  function PairEnergy(key: string, v: Json): nat
  {
    if CleanKey(key) == "energy" then
      var val := CoerceFloat(v);
      if val.Some? && val.value > 0.0 then TruncReal(val.value) else 0
    else 0
  }

  /** The largest `leaf(key, value)` over every pair anywhere under `j`, 0 if none. */
  function Peak(j: Json, leaf: (string, Json) -> nat): nat
    decreases j, 1, 0
  {
    match j
    case JObj(fields) => FieldsPeak(j, |fields|, leaf)
    case JList(items) => ItemsPeak(j, |items|, leaf)
    case _ => 0
  }

  /** `Peak` over the first `n` pairs of object `j`. */
  function FieldsPeak(j: Json, n: nat, leaf: (string, Json) -> nat): nat
    requires j.JObj? && n <= |j.fields|
    decreases j, 0, n
  {
    if n == 0 then 0
    else
      assert j.fields[n - 1] in j.fields;
      Max(FieldsPeak(j, n - 1, leaf), Max(leaf(j.fields[n - 1].0, j.fields[n - 1].1), Peak(j.fields[n - 1].1, leaf)))
  }

  /** `Peak` over the first `n` items of list `j`. */
  function ItemsPeak(j: Json, n: nat, leaf: (string, Json) -> nat): nat
    requires j.JList? && n <= |j.items|
    decreases j, 0, n
  {
    if n == 0 then 0
    else
      assert j.items[n - 1] in j.items;
      Max(ItemsPeak(j, n - 1, leaf), Peak(j.items[n - 1], leaf))
  }

  /** The largest positive energy gain recorded anywhere under `j`, 0 if none. */
  function EnergyPeak(j: Json): nat
  {
    Peak(j, PairEnergy)
  }

  /**
   * The nested `visit` of `max_positive_energy`: walks every pair and item
   * under `node`, raising the running maximum by `leaf(key, value)`.
   */
  method Visit(node: Json, maxGain: nat, leaf: (string, Json) -> nat) returns (m: nat)
    ensures m == Max(maxGain, Peak(node, leaf))
    decreases node
  {
    m := maxGain;
    match node {
      case JObj(fields) =>
        var i := 0;
        while i < |fields|
          invariant 0 <= i <= |fields|
          invariant m == Max(maxGain, FieldsPeak(node, i, leaf))
        {
          var (k, v) := fields[i];
          assert fields[i] in fields;
          m := Max(m, leaf(k, v));
          m := Visit(v, m, leaf);
          i := i + 1;
        }
      case JList(items) =>
        var i := 0;
        while i < |items|
          invariant 0 <= i <= |items|
          invariant m == Max(maxGain, ItemsPeak(node, i, leaf))
        {
          assert items[i] in items;
          m := Visit(items[i], m, leaf);
          i := i + 1;
        }
      case _ =>
    }
  }

  /** `max_positive_energy`. */
  method MaxPositiveEnergy(outcomes: Json) returns (gain: nat)
    ensures gain == EnergyPeak(outcomes)
  {
    gain := Visit(outcomes, 0, PairEnergy);
  }

  lemma {:induction false} FieldsPeakBounds(j: Json, n: nat, k: nat, leaf: (string, Json) -> nat)
    requires j.JObj? && k < n <= |j.fields|
    ensures FieldsPeak(j, n, leaf) >= leaf(j.fields[k].0, j.fields[k].1)
    ensures FieldsPeak(j, n, leaf) >= Peak(j.fields[k].1, leaf)
    decreases n
  {
    if k < n - 1 {
      FieldsPeakBounds(j, n - 1, k, leaf);
    }
  }

  lemma {:induction false} ItemsPeakBounds(j: Json, n: nat, k: nat, leaf: (string, Json) -> nat)
    requires j.JList? && k < n <= |j.items|
    ensures ItemsPeak(j, n, leaf) >= Peak(j.items[k], leaf)
    decreases n
  {
    if k < n - 1 {
      ItemsPeakBounds(j, n - 1, k, leaf);
    }
  }

  /** The peak bounds every energy value in an object, and everything nested one level down. */
  lemma EnergyPeakIsUpperBound(j: Json)
    ensures j.JObj? ==> forall k :: 0 <= k < |j.fields| ==>
              EnergyPeak(j) >= PairEnergy(j.fields[k].0, j.fields[k].1) && EnergyPeak(j) >= EnergyPeak(j.fields[k].1)
    ensures j.JList? ==> forall k :: 0 <= k < |j.items| ==> EnergyPeak(j) >= EnergyPeak(j.items[k])
  {
    if j.JObj? {
      forall k | 0 <= k < |j.fields|
        ensures EnergyPeak(j) >= PairEnergy(j.fields[k].0, j.fields[k].1) && EnergyPeak(j) >= EnergyPeak(j.fields[k].1)
      {
        FieldsPeakBounds(j, |j.fields|, k, PairEnergy);
      }
    } else if j.JList? {
      forall k | 0 <= k < |j.items| ensures EnergyPeak(j) >= EnergyPeak(j.items[k]) {
        ItemsPeakBounds(j, |j.items|, k, PairEnergy);
      }
    }
  }

  // ---------------------------------------------------------------------
  // extract_reward_categories
  // ---------------------------------------------------------------------

  predicate IsPositive(v: Json)
  {
    var val := CoerceFloat(v);
    val.Some? && val.value > 0.0
  }

  /** The category a single `key: value` pair contributes, if any. */
  function PairCategory(key: string, v: Json): (c: Option<string>)
    ensures c.Some? ==> c.value in ValidCategories
  {
    var mapped := RewardAlias(CleanKey(key));
    if mapped == Some("skill_pts") then
      if CoerceFloat(v).None? || IsPositive(v) then Some("skill_pts") else None
    else if mapped == Some("hints") then
      if v.JList? then (if exists k :: 0 <= k < |v.items| && Truthy(v.items[k]) then Some("hints") else None)
      else if Truthy(v) then Some("hints") else None
    else if mapped == Some("stats") then
      if ((v.JInt? || v.JFloat? || v.JBool?) && IsPositive(v)) || v.JObj? || v.JList? || IsPositive(v)
      then Some("stats") else None
    else if mapped == Some("energy") then
      if CoerceFloat(v).None? || IsPositive(v) then Some("energy") else None
    else None
  }

  function Opt(c: Option<string>): set<string>
  {
    if c.Some? then {c.value} else {}
  }

  /** Every `leaf(key, value)` found for the pairs anywhere under `j`. */
  function Found(j: Json, leaf: (string, Json) -> Option<string>): set<string>
    decreases j, 1, 0
  {
    match j
    case JObj(fields) => FieldsFound(j, |fields|, leaf)
    case JList(items) => ItemsFound(j, |items|, leaf)
    case _ => {}
  }

  function FieldsFound(j: Json, n: nat, leaf: (string, Json) -> Option<string>): set<string>
    requires j.JObj? && n <= |j.fields|
    decreases j, 0, n
  {
    if n == 0 then {}
    else
      assert j.fields[n - 1] in j.fields;
      FieldsFound(j, n - 1, leaf) + Opt(leaf(j.fields[n - 1].0, j.fields[n - 1].1)) + Found(j.fields[n - 1].1, leaf)
  }

  function ItemsFound(j: Json, n: nat, leaf: (string, Json) -> Option<string>): set<string>
    requires j.JList? && n <= |j.items|
    decreases j, 0, n
  {
    if n == 0 then {}
    else
      assert j.items[n - 1] in j.items;
      ItemsFound(j, n - 1, leaf) + Found(j.items[n - 1], leaf)
  }

  /** `extract_reward_categories`: the categories the outcomes touch, restricted to the valid ones. */
  function ExtractRewardCategories(outcomes: Json): (r: set<string>)
    ensures r <= ValidCategories
  {
    Found(outcomes, PairCategory) * ValidCategories
  }

  /** A pair that records a positive energy gain is categorised as an energy reward. */
  lemma PairEnergyCategory()
    ensures forall k, v :: PairEnergy(k, v) > 0 ==> PairCategory(k, v) == Some("energy")
  {
  }

  /** If every positive leaf is reported as `target`, a positive peak means `target` is found. */
  lemma {:induction false} PeakImpliesFound(j: Json, leaf: (string, Json) -> nat,
                                            cat: (string, Json) -> Option<string>, target: string)
    requires forall k, v :: leaf(k, v) > 0 ==> cat(k, v) == Some(target)
    ensures Peak(j, leaf) > 0 ==> target in Found(j, cat)
    decreases j, 1, 0
  {
    match j {
      case JObj(fields) => FieldsPeakImpliesFound(j, |fields|, leaf, cat, target);
      case JList(items) => ItemsPeakImpliesFound(j, |items|, leaf, cat, target);
      case _ =>
    }
  }

  lemma {:induction false} FieldsPeakImpliesFound(j: Json, n: nat, leaf: (string, Json) -> nat,
                                                  cat: (string, Json) -> Option<string>, target: string)
    requires j.JObj? && n <= |j.fields|
    requires forall k, v :: leaf(k, v) > 0 ==> cat(k, v) == Some(target)
    ensures FieldsPeak(j, n, leaf) > 0 ==> target in FieldsFound(j, n, cat)
    decreases j, 0, n
  {
    if n > 0 {
      assert j.fields[n - 1] in j.fields;
      FieldsPeakImpliesFound(j, n - 1, leaf, cat, target);
      PeakImpliesFound(j.fields[n - 1].1, leaf, cat, target);
    }
  }

  lemma {:induction false} ItemsPeakImpliesFound(j: Json, n: nat, leaf: (string, Json) -> nat,
                                                 cat: (string, Json) -> Option<string>, target: string)
    requires j.JList? && n <= |j.items|
    requires forall k, v :: leaf(k, v) > 0 ==> cat(k, v) == Some(target)
    ensures ItemsPeak(j, n, leaf) > 0 ==> target in ItemsFound(j, n, cat)
    decreases j, 0, n
  {
    if n > 0 {
      assert j.items[n - 1] in j.items;
      ItemsPeakImpliesFound(j, n - 1, leaf, cat, target);
      PeakImpliesFound(j.items[n - 1], leaf, cat, target);
    }
  }

  /** Outcomes with a positive energy gain are always categorised as an energy reward. */
  lemma EnergyImpliesCategory(outcomes: Json)
    ensures EnergyPeak(outcomes) > 0 ==> "energy" in ExtractRewardCategories(outcomes)
  {
    PairEnergyCategory();
    PeakImpliesFound(outcomes, PairEnergy, PairCategory, "energy");
  }

  // ---------------------------------------------------------------------
  // select_candidate_by_priority
  // ---------------------------------------------------------------------

  function CategoriesOfOption(optionCategories: map<int, set<string>>, opt: int): set<string>
  {
    if opt in optionCategories then optionCategories[opt] else {}
  }

  /** The priority list with unknown categories dropped, or the default when that empties it. */
  function EffectivePriority(priority: seq<string>): (r: seq<string>)
    ensures r != []
    ensures forall c :: c in r ==> c in ValidCategories
  {
    var kept := Filter(priority, (c: string) => c in ValidCategories);
    if kept != [] then kept else DefaultRewardPriority
  }

  /** Position in `order` of the first safe option carrying `category`, or `|order|`. */
  function FirstSafeWith(order: seq<int>, safe: set<int>, cats: map<int, set<string>>, category: string): (i: nat)
    ensures i <= |order|
    ensures i < |order| ==> order[i] in safe && category in CategoriesOfOption(cats, order[i])
    ensures forall k :: 0 <= k < i ==> !(order[k] in safe && category in CategoriesOfOption(cats, order[k]))
    decreases |order|
  {
    if order == [] then 0
    else if order[0] in safe && category in CategoriesOfOption(cats, order[0]) then 0
    else 1 + FirstSafeWith(order[1..], safe, cats, category)
  }

  /** Position in `order` of the first safe option, or `|order|`. */
  function FirstSafe(order: seq<int>, safe: set<int>): (i: nat)
    ensures i <= |order|
    ensures i < |order| ==> order[i] in safe
    ensures forall k :: 0 <= k < i ==> order[k] !in safe
    decreases |order|
  {
    if order == [] then 0
    else if order[0] in safe then 0
    else 1 + FirstSafe(order[1..], safe)
  }

  /** Tries the categories in priority order; the first one some safe option carries decides. */
  function ByCategory(prio: seq<string>, order: seq<int>, safe: set<int>, cats: map<int, set<string>>): (r: Option<(nat, string)>)
    ensures r.Some? ==> r.value.0 < |prio| && r.value.1 == prio[r.value.0] &&
                        FirstSafeWith(order, safe, cats, r.value.1) < |order|
    ensures r.Some? ==> forall p :: 0 <= p < r.value.0 ==> FirstSafeWith(order, safe, cats, prio[p]) == |order|
    ensures r.None? ==> forall p :: 0 <= p < |prio| ==> FirstSafeWith(order, safe, cats, prio[p]) == |order|
    decreases |prio|
  {
    if prio == [] then None
    else if FirstSafeWith(order, safe, cats, prio[0]) < |order| then Some((0, prio[0]))
    else
      var rest := ByCategory(prio[1..], order, safe, cats);
      if rest.Some? then Some((rest.value.0 + 1, rest.value.1)) else None
  }

  /**
   * `select_candidate_by_priority`: nothing without safe candidates; else the
   * first safe option (in candidate order) carrying the best-ranked category
   * any safe option carries; else the first safe option, with no category.
   */
  function SelectCandidateByPriority(order: seq<int>, safeCandidates: seq<int>, cats: map<int, set<string>>,
                                     priority: seq<string>): (r: Option<(int, Option<string>)>)
    ensures safeCandidates == [] ==> r.None?
    ensures r.Some? ==> r.value.0 in safeCandidates && r.value.0 in order
    ensures r.Some? && r.value.1.Some? ==>
              r.value.1.value in EffectivePriority(priority) && r.value.1.value in CategoriesOfOption(cats, r.value.0)
    ensures r.None? && safeCandidates != [] ==> forall k :: 0 <= k < |order| ==> order[k] !in safeCandidates
  {
    if safeCandidates == [] then None
    else
      var prio := EffectivePriority(priority);
      var safe := set o | o in safeCandidates;
      var hit := ByCategory(prio, order, safe, cats);
      if hit.Some? then
        var i := FirstSafeWith(order, safe, cats, hit.value.1);
        Some((order[i], Some(hit.value.1)))
      else
        var i := FirstSafe(order, safe);
        if i < |order| then Some((order[i], None)) else None
  }

  /**
   * The choice is the best one: with a category, no safe option carries a
   * category ranked higher, and no safe option earlier in `order` carries the
   * chosen one; without a category, no safe option carries any priority
   * category and the pick is the first safe option.
   */
  lemma SelectCandidateByPriorityBest(order: seq<int>, safeCandidates: seq<int>, cats: map<int, set<string>>,
                                      priority: seq<string>)
    ensures var r := SelectCandidateByPriority(order, safeCandidates, cats, priority);
            var prio := EffectivePriority(priority);
            r.Some? && r.value.1.Some? ==>
              (exists p :: 0 <= p < |prio| && prio[p] == r.value.1.value &&
                 forall p', k :: 0 <= p' < p && 0 <= k < |order| && order[k] in safeCandidates ==>
                   prio[p'] !in CategoriesOfOption(cats, order[k])) &&
              (exists k :: 0 <= k < |order| && order[k] == r.value.0 &&
                 forall k' :: 0 <= k' < k ==> !(order[k'] in safeCandidates && r.value.1.value in CategoriesOfOption(cats, order[k'])))
    ensures var r := SelectCandidateByPriority(order, safeCandidates, cats, priority);
            r.Some? && r.value.1.None? ==>
              (forall c, k :: c in EffectivePriority(priority) && 0 <= k < |order| && order[k] in safeCandidates ==>
                 c !in CategoriesOfOption(cats, order[k])) &&
              (exists k :: 0 <= k < |order| && order[k] == r.value.0 && forall k' :: 0 <= k' < k ==> order[k'] !in safeCandidates)
  {
    if safeCandidates != [] {
      var prio := EffectivePriority(priority);
      var safe := set o | o in safeCandidates;
      var hit := ByCategory(prio, order, safe, cats);
      if hit.Some? {
        var p := hit.value.0;
        forall p', k | 0 <= p' < p && 0 <= k < |order| && order[k] in safeCandidates
          ensures prio[p'] !in CategoriesOfOption(cats, order[k])
        {
          assert FirstSafeWith(order, safe, cats, prio[p']) == |order|;
        }
      } else {
        forall c, k | c in prio && 0 <= k < |order| && order[k] in safeCandidates
          ensures c !in CategoriesOfOption(cats, order[k])
        {
          var p :| 0 <= p < |prio| && prio[p] == c;
          assert FirstSafeWith(order, safe, cats, prio[p]) == |order|;
        }
      }
    }
  }
}
