/**
 * Process-wide configuration (core/settings.py): scenario names, numeric
 * clamps, the active preset of a web-UI config, the support-card priority
 * deck and the Unity Cup advanced block. The class-level attributes the
 * source reassigns in `apply_config` are the fields of `Settings`.
 */
module Settings {
  import opened Wrappers
  import opened Strings
  import opened JsonValues
  import opened Sorting
  import Dicts

  // ---------------------------------------------------------------------
  // Reading JSON the way the source does
  // ---------------------------------------------------------------------

  /** `d.get(key)`: Python's `None` (here `JNull`) when absent or when `d` is not a dict. */
  function PyGet(d: Json, key: string): Json
  {
    Field(d, key).GetOr(JNull)
  }

  /** `d.get(key, default)`. */
  function PyGetOr(d: Json, key: string, default: Json): (r: Json)
    ensures Field(d, key).None? ==> r == default
  {
    Field(d, key).GetOr(default)
  }

  /** `x or {}`. */
  function OrEmpty(j: Json): (r: Json)
    ensures Truthy(j) ==> r == j
    ensures !Truthy(j) ==> r == JObj([])
  {
    if Truthy(j) then j else JObj([])
  }

  /** `str(v)` on the scalar values configs hold. */
  function Str(v: Json): string
  {
    ScalarText(v)
  }

  // ---------------------------------------------------------------------
  // Scenarios
  // ---------------------------------------------------------------------

  const Scenarios: set<string> := {"ura", "unity_cup"}

  /** `normalize_scenario`: "aoharu" is the old name of Unity Cup; anything unknown is URA. */
  function NormalizeScenario(scenario: string): (r: string)
    ensures r in Scenarios
  {
    var key := Lower(Strip(if scenario == "" then "ura" else scenario));
    var key' := if key == "aoharu" then "unity_cup" else key;
    if key' !in Scenarios then "ura" else key'
  }

  /** Known names are kept, "aoharu" becomes "unity_cup", everything else "ura". */
  lemma NormalizeScenarioCases(scenario: string)
    ensures Lower(Strip(scenario)) in Scenarios ==> NormalizeScenario(scenario) == Lower(Strip(scenario))
    ensures Lower(Strip(scenario)) == "aoharu" ==> NormalizeScenario(scenario) == "unity_cup"
    ensures Lower(Strip(scenario)) !in Scenarios + {"aoharu"} ==> NormalizeScenario(scenario) == "ura"
  {
    if scenario == "" {
      NormalizedIsClean("ura");
      assert |Lower(Strip(scenario))| == 0;
    }
  }

  lemma NormalizedIsClean(s: string)
    requires s in Scenarios
    ensures Lower(Strip(s)) == s
  {
    assert s == "ura" || s == "unity_cup";
    StripNoEdge(s);
    assert !IsSpace(s[0]) && !IsSpace(s[|s| - 1]);
    assert Lower(s) == s;
  }

  /** Normalising twice changes nothing. */
  lemma NormalizeScenarioIdempotent(scenario: string)
    ensures NormalizeScenario(NormalizeScenario(scenario)) == NormalizeScenario(scenario)
  {
    NormalizedIsClean(NormalizeScenario(scenario));
  }

  // ---------------------------------------------------------------------
  // Clamps
  // ---------------------------------------------------------------------

  /** `max(lo, min(hi, v))`. */
  function ClampInt(lo: int, hi: int, v: int): (r: int)
    ensures lo <= hi ==> lo <= r <= hi
    ensures lo <= v <= hi ==> r == v
    ensures v < lo ==> r == lo
    ensures lo <= hi < v ==> r == hi
  {
    if v < lo then lo else if hi < v then (if hi < lo then lo else hi) else v
  }

  function ClampReal(lo: real, hi: real, v: real): (r: real)
    ensures lo <= hi ==> lo <= r <= hi
    ensures lo <= v <= hi ==> r == v
    ensures v < lo ==> r == lo
    ensures lo <= hi < v ==> r == hi
  {
    if v < lo then lo else if hi < v then (if hi < lo then lo else hi) else v
  }

  /** `_clamp`: the lower bound for values `float()` rejects, else the value clamped. */
  function Clamp(value: Json, lo: real, hi: real): (r: real)
    ensures CoerceFloat(value).None? ==> r == lo
    ensures lo <= hi ==> lo <= r <= hi
    ensures CoerceFloat(value).Some? && lo <= CoerceFloat(value).value <= hi ==> r == CoerceFloat(value).value
  {
    var val := CoerceFloat(value);
    if val.None? then lo else ClampReal(lo, hi, val.value)
  }

  // ---------------------------------------------------------------------
  // _get_active_preset_from_config
  // ---------------------------------------------------------------------

  /** The preset list and active id: the active scenario's branch, or the legacy top level when it has none. */
  function PresetSource(cfg: Json): (r: (Json, Json))
    ensures Truthy(r.0) || r.0 == OrEmpty(PyGet(cfg, "presets"))
  {
    var general := OrEmpty(PyGet(cfg, "general"));
    var rawScenario := PyGet(general, "activeScenario");
    var active := if Truthy(rawScenario) then rawScenario else JStr("ura");
    var scenarios := OrEmpty(PyGet(cfg, "scenarios"));
    var branch := OrEmpty(if active.JStr? then PyGet(scenarios, active.s) else JNull);
    var presets := PyGet(branch, "presets");
    if Truthy(presets) then (presets, PyGet(branch, "activePresetId"))
    else (OrEmpty(PyGet(cfg, "presets")), PyGet(cfg, "activePresetId"))
  }

  /** The presets a preset list holds (a non-list holds none). */
  function Items(presets: Json): seq<Json>
  {
    if presets.JList? then presets.items else []
  }

  /** Index of the first preset whose `id` equals `activeId`, or `|presets|`. */
  function FirstWithId(presets: seq<Json>, activeId: Json): (i: nat)
    ensures i <= |presets|
    ensures i < |presets| ==> PyGet(presets[i], "id") == activeId
    ensures forall k :: 0 <= k < i ==> PyGet(presets[k], "id") != activeId
    decreases |presets|
  {
    if presets == [] then 0
    else if PyGet(presets[0], "id") == activeId then 0
    else 1 + FirstWithId(presets[1..], activeId)
  }

  /**
   * `_get_active_preset_from_config`: the (non-empty) preset carrying the
   * active id, else the first preset, else none.
   */
  function GetActivePreset(cfg: Json): (r: Option<Json>)
    ensures var ps := Items(PresetSource(cfg).0); r.None? <==> ps == []
    ensures var ps := Items(PresetSource(cfg).0); r.Some? ==> r.value in ps
  {
    var (presets, activeId) := PresetSource(cfg);
    var ps := Items(presets);
    var i := FirstWithId(ps, activeId);
    if i < |ps| && Truthy(ps[i]) then Some(ps[i])
    else if ps != [] then Some(ps[0])
    else None
  }

  /**
   * The chosen preset is the first one with the active id when that one is
   * non-empty; otherwise it is the first preset of the list.
   */
  lemma ActivePresetChoice(cfg: Json)
    ensures var (presets, activeId) := PresetSource(cfg);
            var ps := Items(presets);
            var r := GetActivePreset(cfg);
            (forall k :: 0 <= k < |ps| && Truthy(ps[k]) && PyGet(ps[k], "id") == activeId ==>
               r == Some(ps[FirstWithId(ps, activeId)]) || !Truthy(ps[FirstWithId(ps, activeId)])) &&
            (r.Some? && (forall k :: 0 <= k < |ps| ==> PyGet(ps[k], "id") != activeId) ==> r == Some(ps[0]))
  {
  }

  /** A scenario branch with presets shadows the legacy top-level list. */
  lemma ScenarioBranchFirst(cfg: Json, active: string)
    requires PyGet(OrEmpty(PyGet(cfg, "general")), "activeScenario") == JStr(active) && active != ""
    requires Truthy(PyGet(OrEmpty(PyGet(OrEmpty(PyGet(cfg, "scenarios")), active)), "presets"))
    ensures PresetSource(cfg).0 == PyGet(OrEmpty(PyGet(OrEmpty(PyGet(cfg, "scenarios")), active)), "presets")
  {
  }

  // ---------------------------------------------------------------------
  // Support priorities
  // ---------------------------------------------------------------------

  datatype SupportPriority = SupportPriority(
    enabled: bool,
    scoreBlueGreen: real,
    scoreOrangeMax: real,
    skillsRequired: seq<string>,
    recheckAfterHint: bool)

  /** `default_support_priority` (its gating controls are absent, which reads as none). */
  const DefaultSupportPriority: SupportPriority := SupportPriority(true, 0.75, 0.5, [], false)

  /** The non-empty stripped texts of the string and number items of a list. */
  function SkillTexts(items: seq<Json>): (r: seq<string>)
    ensures forall k :: 0 <= k < |r| ==> r[k] != ""
    decreases |items|
  {
    if items == [] then []
    else
      var v := items[0];
      var t := Strip(Str(v));
      var rest := SkillTexts(items[1..]);
      if (v.JStr? || v.JInt? || v.JFloat? || v.JBool?) && t != "" then [t] + rest else rest
  }

  /** The non-empty stripped pieces of a comma-separated text. */
  function CommaItems(parts: seq<string>): (r: seq<string>)
    ensures forall k :: 0 <= k < |r| ==> r[k] != ""
    decreases |parts|
  {
    if parts == [] then []
    else
      var t := Strip(parts[0]);
      var rest := CommaItems(parts[1..]);
      if t != "" then [t] + rest else rest
  }

  /**
   * What `_clamp(given, 0, 10)` makes of a score: a value `float()` accepts is kept inside
   * [0, 10] and moved to the nearer bound outside it; one `float()` rejects reads as 0.
   */
  predicate ScoreOf(given: Json, s: real)
  {
    var v := CoerceFloat(given);
    (v.None? ==> s == 0.0) &&
    (v.Some? && 0.0 <= v.value <= 10.0 ==> s == v.value) &&
    (v.Some? && v.value < 0.0 ==> s == 0.0) &&
    (v.Some? && 10.0 < v.value ==> s == 10.0)
  }

  /**
   * `_normalize_priority`: a missing or non-dict block is the default; otherwise the enabled
   * and recheck flags are the block's truth values (defaulting to on and off), each score is
   * the given one clamped to [0, 10] (defaulting to 0.75 and 0.5), and blank skills are dropped.
   */
  function NormalizePriority(raw: Json): (p: SupportPriority)
    ensures !Truthy(raw) || !raw.JObj? ==> p == DefaultSupportPriority
    ensures 0.0 <= p.scoreBlueGreen <= 10.0 && 0.0 <= p.scoreOrangeMax <= 10.0
    ensures forall k :: 0 <= k < |p.skillsRequired| ==> p.skillsRequired[k] != ""
    ensures Truthy(raw) && raw.JObj? ==>
              p.enabled == Truthy(PyGetOr(raw, "enabled", JBool(true))) &&
              p.recheckAfterHint == Truthy(PyGetOr(raw, "recheckAfterHint", JBool(false)))
    ensures Truthy(raw) && raw.JObj? ==>
              ScoreOf(PyGetOr(raw, "scoreBlueGreen", JFloat(0.75)), p.scoreBlueGreen) &&
              ScoreOf(PyGetOr(raw, "scoreOrangeMax", JFloat(0.5)), p.scoreOrangeMax)
    ensures Field(raw, "scoreBlueGreen").None? ==> p.scoreBlueGreen == 0.75
    ensures Field(raw, "scoreOrangeMax").None? ==> p.scoreOrangeMax == 0.5
  {
    if !Truthy(raw) || !raw.JObj? then DefaultSupportPriority
    else
      var skills := PyGet(raw, "skillsRequiredForPriority");
      var list :=
        if skills.JList? then SkillTexts(skills.items)
        else if skills.JStr? then CommaItems(Split(skills.s, ','))
        else [];
      SupportPriority(
        Truthy(PyGetOr(raw, "enabled", JBool(true))),
        Clamp(PyGetOr(raw, "scoreBlueGreen", JFloat(0.75)), 0.0, 10.0),
        Clamp(PyGetOr(raw, "scoreOrangeMax", JFloat(0.5)), 0.0, 10.0),
        list,
        Truthy(PyGetOr(raw, "recheckAfterHint", JBool(false))))
  }

  function Abs(x: real): real { if x < 0.0 then -x else x }

  /** `math.isclose(a, b, rel_tol=1e-6, abs_tol=1e-6)`. */
  predicate IsClose(a: real, b: real)
  {
    var tol := 0.000001;
    var big := if Abs(a) < Abs(b) then Abs(b) else Abs(a);
    Abs(a - b) <= (if tol * big < tol then tol else tol * big)
  }

  /** `_priority_is_custom`: whether a priority differs from the default in any respect. */
  predicate PriorityIsCustom(p: SupportPriority)
  {
    p.enabled != DefaultSupportPriority.enabled ||
    !IsClose(p.scoreBlueGreen, DefaultSupportPriority.scoreBlueGreen) ||
    !IsClose(p.scoreOrangeMax, DefaultSupportPriority.scoreOrangeMax) ||
    |p.skillsRequired| > 0 ||
    p.recheckAfterHint
  }

  /** A missing or empty priority block never counts as a customisation. */
  lemma DefaultIsNotCustom(raw: Json)
    requires !Truthy(raw) || !raw.JObj?
    ensures !PriorityIsCustom(NormalizePriority(raw))
  {
  }

  /**
   * A priority is a customisation exactly when it is disabled, a score is not within 1e-6 of
   * its default 0.75 or 0.5, it names a required skill, or it asks for the recheck after hints.
   */
  lemma PriorityIsCustomCases(p: SupportPriority)
    ensures PriorityIsCustom(p) <==>
              !p.enabled || !IsClose(p.scoreBlueGreen, 0.75) || !IsClose(p.scoreOrangeMax, 0.5) ||
              |p.skillsRequired| > 0 || p.recheckAfterHint
    ensures IsClose(p.scoreBlueGreen, 0.75) <==> 0.75 - 0.000001 <= p.scoreBlueGreen <= 0.75 + 0.000001
    ensures IsClose(p.scoreOrangeMax, 0.5) <==> 0.5 - 0.000001 <= p.scoreOrangeMax <= 0.5 + 0.000001
  {
  }

  /** One card of the support deck. */
  datatype DeckCard = DeckCard(slot: int, name: string, rarity: string, attribute: string, avoidEnergyOverflow: bool)

  type SupportKey = (string, string, string)

  /** Whether a `supports` entry names a card: a dict whose name, rarity and attribute are all set. */
  predicate IsCardEntry(entry: Json)
  {
    Truthy(entry) && entry.JObj? &&
    Truthy(PyGet(entry, "name")) && Truthy(PyGet(entry, "rarity")) && Truthy(PyGet(entry, "attribute"))
  }

  /** The energy-overflow flag of an entry: its boolean when it gives one, else true. */
  function AvoidFlag(entry: Json): (b: bool)
    ensures !PyGet(entry, "avoidEnergyOverflow").JBool? && !PyGet(entry, "avoid_energy_overflow").JBool? ==> b
  {
    var raw := PyGet(entry, "avoidEnergyOverflow");
    var raw' := if raw.JNull? then PyGet(entry, "avoid_energy_overflow") else raw;
    if raw'.JBool? then raw'.b else true
  }

  /** The deck card an entry describes, placed at `position` when its slot is missing or malformed. */
  function CardOf(entry: Json, position: nat): (c: DeckCard)
  {
    var slot := PyGet(entry, "slot");
    var idx := if slot.JNull? then position else ToInt(slot).GetOr(position);
    DeckCard(idx, Str(PyGet(entry, "name")), Str(PyGet(entry, "rarity")), Str(PyGet(entry, "attribute")), AvoidFlag(entry))
  }

  function KeyOf(c: DeckCard): SupportKey
  {
    (c.name, c.rarity, c.attribute)
  }

  /** The `(name, rarity, attribute)` key of a card entry. */
  function EntryKey(entry: Json): SupportKey
  {
    (Str(PyGet(entry, "name")), Str(PyGet(entry, "rarity")), Str(PyGet(entry, "attribute")))
  }

  predicate SlotLe(a: DeckCard, b: DeckCard)
  {
    a.slot <= b.slot
  }

  /** The cards, in entry order, of the entries that name one. */
  function CardsOf(entries: seq<Json>): (cards: seq<DeckCard>)
    ensures |cards| <= |entries|
    decreases |entries|
  {
    if entries == [] then []
    else
      var init := CardsOf(entries[..|entries| - 1]);
      var e := entries[|entries| - 1];
      if IsCardEntry(e) then init + [CardOf(e, |init|)] else init
  }

  /** The `supports` list of a preset's event setup. */
  function SupportEntries(preset: Json): seq<Json>
  {
    var setup := OrEmpty(PyGetOr(OrEmpty(preset), "event_setup", JObj([])));
    Items(OrEmpty(PyGetOr(setup, "supports", JList([]))))
  }

  /** The support deck of a preset: its cards sorted (stably) by slot. */
  function Deck(preset: Json): seq<DeckCard>
  {
    SortBy(CardsOf(SupportEntries(preset)), SlotLe)
  }

  /** `priorities[key] = _normalize_priority(entry["priority"])` over every card entry in order. */
  function PriorityMap(entries: seq<Json>): Dicts.Dict<SupportKey, SupportPriority>
    decreases |entries|
  {
    if entries == [] then []
    else
      var init := PriorityMap(entries[..|entries| - 1]);
      var e := entries[|entries| - 1];
      if IsCardEntry(e) then Dicts.Assign(init, EntryKey(e), NormalizePriority(PyGet(e, "priority"))) else init
  }

  /** `avoid_energy[key] = flag` over every card in order. */
  function AvoidMap(cards: seq<DeckCard>): Dicts.Dict<SupportKey, bool>
    decreases |cards|
  {
    if cards == [] then []
    else Dicts.Assign(AvoidMap(cards[..|cards| - 1]), KeyOf(cards[|cards| - 1]), cards[|cards| - 1].avoidEnergyOverflow)
  }

  lemma {:induction false} AvoidMapProps(cards: seq<DeckCard>)
    ensures Dicts.UniqueKeys(AvoidMap(cards))
    ensures forall k :: 0 <= k < |cards| ==> Dicts.HasKey(AvoidMap(cards), KeyOf(cards[k]))
    decreases |cards|
  {
    if cards != [] {
      var init := cards[..|cards| - 1];
      var c := cards[|cards| - 1];
      AvoidMapProps(init);
      Dicts.AssignProps(AvoidMap(init), KeyOf(c), c.avoidEnergyOverflow);
      forall k | 0 <= k < |cards| ensures Dicts.HasKey(AvoidMap(cards), KeyOf(cards[k])) {
        if k < |cards| - 1 {
          assert cards[k] == init[k];
          assert Dicts.Lookup(AvoidMap(init), KeyOf(init[k])).Some?;
        }
      }
    }
  }

  lemma {:induction false} PriorityMapUnique(entries: seq<Json>)
    ensures Dicts.UniqueKeys(PriorityMap(entries))
    decreases |entries|
  {
    if entries != [] {
      var e := entries[|entries| - 1];
      PriorityMapUnique(entries[..|entries| - 1]);
      if IsCardEntry(e) {
        Dicts.AssignProps(PriorityMap(entries[..|entries| - 1]), EntryKey(e), NormalizePriority(PyGet(e, "priority")));
      }
    }
  }

  /**
   * The deck holds exactly the accepted cards, sorted by slot; every card
   * has an energy-overflow flag, and no key appears twice in either map.
   */
  lemma DeckProps(preset: Json)
    ensures var cards := CardsOf(SupportEntries(preset));
            multiset(Deck(preset)) == multiset(cards) && SortedBy(Deck(preset), SlotLe) &&
            Dicts.UniqueKeys(AvoidMap(cards)) && Dicts.UniqueKeys(PriorityMap(SupportEntries(preset))) &&
            forall c :: c in Deck(preset) ==> Dicts.HasKey(AvoidMap(cards), KeyOf(c))
  {
    var cards := CardsOf(SupportEntries(preset));
    SortBySorted(cards, SlotLe);
    AvoidMapProps(cards);
    PriorityMapUnique(SupportEntries(preset));
    forall c | c in Deck(preset) ensures Dicts.HasKey(AvoidMap(cards), KeyOf(c)) {
      assert c in multiset(cards);
      var k :| 0 <= k < |cards| && cards[k] == c;
    }
  }

  /** One more entry: the card list and the priority map each take one step. */
  lemma EntryStep(entries: seq<Json>, i: nat)
    requires i < |entries|
    ensures var e := entries[i];
            var cards := CardsOf(entries[..i]);
            CardsOf(entries[..i + 1]) == (if IsCardEntry(e) then cards + [CardOf(e, |cards|)] else cards) &&
            PriorityMap(entries[..i + 1]) ==
              (if IsCardEntry(e) then Dicts.Assign(PriorityMap(entries[..i]), EntryKey(e), NormalizePriority(PyGet(e, "priority")))
               else PriorityMap(entries[..i]))
  {
    assert entries[..i + 1][..i] == entries[..i];
  }

  /** One more card: the avoid map takes one step. */
  lemma AvoidStep(cards: seq<DeckCard>, c: DeckCard)
    ensures AvoidMap(cards + [c]) == Dicts.Assign(AvoidMap(cards), KeyOf(c), c.avoidEnergyOverflow)
  {
    assert (cards + [c])[..|cards|] == cards;
  }

  /** The loop body of `_extract_support_priorities_from_preset` for one entry. */
  method AddSupportEntry(entry: Json, cards0: seq<DeckCard>, priorities0: Dicts.Dict<SupportKey, SupportPriority>,
                         avoid0: Dicts.Dict<SupportKey, bool>)
    returns (cards: seq<DeckCard>, priorities: Dicts.Dict<SupportKey, SupportPriority>, avoid: Dicts.Dict<SupportKey, bool>)
    ensures IsCardEntry(entry) ==>
              cards == cards0 + [CardOf(entry, |cards0|)] &&
              priorities == Dicts.Assign(priorities0, EntryKey(entry), NormalizePriority(PyGet(entry, "priority"))) &&
              avoid == Dicts.Assign(avoid0, KeyOf(CardOf(entry, |cards0|)), CardOf(entry, |cards0|).avoidEnergyOverflow)
    ensures !IsCardEntry(entry) ==> cards == cards0 && priorities == priorities0 && avoid == avoid0
  {
    cards, priorities, avoid := cards0, priorities0, avoid0;
    if IsCardEntry(entry) {
      var card := CardOf(entry, |cards|);
      cards := cards + [card];
      priorities := Dicts.Assign(priorities, EntryKey(entry), NormalizePriority(PyGet(entry, "priority")));
      avoid := Dicts.Assign(avoid, KeyOf(card), card.avoidEnergyOverflow);
    }
  }

  /**
   * `_extract_support_priorities_from_preset`: the deck (sorted by slot),
   * the priority of every card and its energy-overflow flag.
   */
  method ExtractSupportPriorities(preset: Json)
    returns (deck: seq<DeckCard>, priorities: Dicts.Dict<SupportKey, SupportPriority>, avoid: Dicts.Dict<SupportKey, bool>)
    ensures deck == Deck(preset)
    ensures priorities == PriorityMap(SupportEntries(preset))
    ensures avoid == AvoidMap(CardsOf(SupportEntries(preset)))
  {
    var cards;
    cards, priorities, avoid := ScanSupportEntries(SupportEntries(preset));
    deck := SortBy(cards, SlotLe);
  }

  /** The loop of `_extract_support_priorities_from_preset` over the support entries. */
  method ScanSupportEntries(entries: seq<Json>)
    returns (cards: seq<DeckCard>, priorities: Dicts.Dict<SupportKey, SupportPriority>, avoid: Dicts.Dict<SupportKey, bool>)
    ensures cards == CardsOf(entries)
    ensures priorities == PriorityMap(entries)
    ensures avoid == AvoidMap(cards)
  {
    cards := [];
    priorities := [];
    avoid := [];
    var i := 0;
    while i < |entries|
      invariant 0 <= i <= |entries|
      invariant cards == CardsOf(entries[..i])
      invariant priorities == PriorityMap(entries[..i])
      invariant avoid == AvoidMap(cards)
    {
      EntryStep(entries, i);
      if IsCardEntry(entries[i]) {
        AvoidStep(cards, CardOf(entries[i], |cards|));
      }
      cards, priorities, avoid := AddSupportEntry(entries[i], cards, priorities, avoid);
      i := i + 1;
    }
    assert entries[..|entries|] == entries;
  }

  // ---------------------------------------------------------------------
  // Unity Cup advanced block
  // ---------------------------------------------------------------------

  const BurstStatsDefault: seq<string> := ["SPD", "STA", "PWR", "GUTS", "WIT"]
  const OpponentSlots: seq<(string, int)> := [("race1", 2), ("race2", 1), ("race3", 1), ("race4", 1), ("defaultUnknown", 1)]

  /** The upper-cased burst stats of a list that are allowed ones, in order. */
  function AllowedStats(items: seq<Json>): (r: seq<string>)
    ensures forall k :: 0 <= k < |r| ==> r[k] in BurstStatsDefault
    decreases |items|
  {
    if items == [] then []
    else
      var s := Upper(Str(items[0]));
      var rest := AllowedStats(items[1..]);
      if s in BurstStatsDefault then [s] + rest else rest
  }

  /** The `burst_allowed_stats` of `_normalize_unity_cup_advanced`: never empty, only known stats. */
  function BurstStats(rawAdv: Json): (r: seq<string>)
    ensures r != []
    ensures forall k :: 0 <= k < |r| ==> r[k] in BurstStatsDefault
  {
    var raw := PyGet(rawAdv, "burstAllowedStats");
    var filtered := if Truthy(raw) && raw.JList? then AllowedStats(raw.items) else BurstStatsDefault;
    if filtered == [] then BurstStatsDefault else filtered
  }

  /** The opponent choice for each default slot, clamped to 1..3; malformed values use the slot default. */
  function OpponentSelection(rawAdv: Json): (r: seq<(string, int)>)
    ensures |r| == |OpponentSlots|
    ensures forall k :: 0 <= k < |r| ==> r[k].0 == OpponentSlots[k].0 && 1 <= r[k].1 <= 3
  {
    var raw := PyGet(rawAdv, "opponentSelection");
    seq(|OpponentSlots|, k requires 0 <= k < |OpponentSlots| =>
      var (slot, default) := OpponentSlots[k];
      (slot, ClampInt(1, 3, ToInt(PyGetOr(raw, slot, JInt(default))).GetOr(default))))
  }

  /**
   * `_merge_nested`: one entry per default key, in the default's order; a
   * nested default block is merged recursively, a leaf becomes the incoming
   * value as a float, or keeps the default when that is not a number.
   */
  function MergeNested(defaults: Json, incoming: Json): (r: Json)
    requires defaults.JObj?
    ensures r.JObj? && |r.fields| == |defaults.fields|
    ensures forall k :: 0 <= k < |r.fields| ==> r.fields[k].0 == defaults.fields[k].0
    decreases defaults, 1
  {
    JObj(MergeFields(defaults, |defaults.fields|, incoming))
  }

  function MergeFields(defaults: Json, n: nat, incoming: Json): (r: seq<(string, Json)>)
    requires defaults.JObj? && n <= |defaults.fields|
    ensures |r| == n
    ensures forall k :: 0 <= k < n ==> r[k].0 == defaults.fields[k].0
    decreases defaults, 0, n
  {
    if n == 0 then []
    else
      var (key, dv) := defaults.fields[n - 1];
      assert defaults.fields[n - 1] in defaults.fields;
      var inc := if incoming.JObj? then incoming else JObj([]);
      var value := PyGetOr(inc, key, dv);
      var merged :=
        if dv.JObj? then MergeNested(dv, value)
        else
          var f := CoerceFloat(value);
          if f.Some? then JFloat(f.value) else dv;
      MergeFields(defaults, n - 1, incoming) + [(key, merged)]
  }

  /** The normalised Unity Cup advanced settings the rest of the program reads. */
  datatype UnityCupAdvanced = UnityCupAdvanced(
    burstAllowedStats: seq<string>,
    scores: Json,
    multipliers: Json,
    burstDeadline: Json,
    opponentSelection: seq<(string, int)>)

  const ScoresDefault: Json := JObj([
    ("rainbowCombo", JFloat(0.5)), ("whiteSpiritFill", JFloat(0.4)), ("whiteSpiritExploded", JFloat(0.13)),
    ("whiteComboBase", JFloat(0.2)), ("whiteComboPerFill", JFloat(0.25)), ("whiteComboExplodedTiny", JFloat(0.01)),
    ("blueSpiritEach", JFloat(0.5)), ("blueComboPerExtraFill", JFloat(0.25))])
  const MultiplierBlock: Json := JObj([("white", JFloat(1.0)), ("whiteCombo", JFloat(1.0)), ("blueCombo", JFloat(1.0))])
  const MultipliersDefault: Json := JObj([("juniorClassic", MultiplierBlock), ("senior", MultiplierBlock)])
  const BurstDeadlineDefault: Json := JObj([("preSeniorNovEarlyTurns", JInt(4)), ("finalSeasonExplodeLastTurns", JInt(2))])

  function OpponentDefaults(): (r: seq<(string, int)>)
    ensures |r| == |OpponentSlots|
  {
    OpponentSlots
  }

  const AdvancedDefault: UnityCupAdvanced :=
    UnityCupAdvanced(BurstStatsDefault, ScoresDefault, MultipliersDefault, BurstDeadlineDefault, OpponentSlots)

  /** `_normalize_unity_cup_advanced`. */
  function NormalizeUnityCupAdvanced(rawAdv: Json): (r: UnityCupAdvanced)
    ensures r.burstAllowedStats != [] && forall k :: 0 <= k < |r.burstAllowedStats| ==> r.burstAllowedStats[k] in BurstStatsDefault
    ensures |r.opponentSelection| == |OpponentSlots|
    ensures forall k :: 0 <= k < |r.opponentSelection| ==>
              r.opponentSelection[k].0 == OpponentSlots[k].0 && 1 <= r.opponentSelection[k].1 <= 3
  {
    var adv := if rawAdv.JObj? then rawAdv else JObj([]);
    UnityCupAdvanced(
      BurstStats(adv),
      MergeNested(ScoresDefault, PyGet(adv, "scores")),
      MergeNested(MultipliersDefault, PyGet(adv, "multipliers")),
      MergeNested(BurstDeadlineDefault, PyGet(adv, "burstDeadline")),
      OpponentSelection(adv))
  }

  // ---------------------------------------------------------------------
  // Skill-memory path
  // ---------------------------------------------------------------------

  /** Index of the last `.` of `s`, or `|s|`. */
  function LastDot(s: string): (i: nat)
    ensures i <= |s|
    ensures i < |s| ==> s[i] == '.'
    ensures forall k :: i < k < |s| ==> s[k] != '.'
    ensures i == |s| ==> forall k :: 0 <= k < |s| ==> s[k] != '.'
    decreases |s|
  {
    if s == [] then 0
    else if s[|s| - 1] == '.' then |s| - 1
    else
      var i := LastDot(s[..|s| - 1]);
      if i == |s| - 1 then |s| else i
  }

  /** `PurePath.suffix`: from the last dot, unless that dot starts or ends the name. */
  function Suffix(name: string): (r: string)
    ensures r == "" || r[0] == '.'
  {
    var i := LastDot(name);
    if 0 < i < |name| - 1 then name[i..] else ""
  }

  function Stem(name: string): (r: string)
    ensures r + Suffix(name) == name
  {
    var i := LastDot(name);
    if 0 < i < |name| - 1 then name[..i] else name
  }

  /** A path as its components; the last one is the file name. */
  type PathParts = seq<string>

  /**
   * `resolve_skill_memory_path`: the scenario inserted before the file's
   * suffix, or, for a base without suffix, a per-scenario file inside it.
   */
  function SkillMemoryPath(base: PathParts, scenario: string): (r: PathParts)
    requires base != []
    ensures |r| >= 1
    ensures var key := NormalizeScenario(scenario);
            var name := base[|base| - 1];
            if Suffix(name) != "" then
              r[..|r| - 1] == base[..|base| - 1] && r[|r| - 1] == Stem(name) + "." + key + Suffix(name)
            else
              r[..|r| - 1] == base && r[|r| - 1] == "runtime_skill_memory." + key + ".json"
  {
    var key := NormalizeScenario(scenario);
    var name := base[|base| - 1];
    var suffix := Suffix(name);
    if suffix != "" then
      var r := base[..|base| - 1] + [Stem(name) + "." + key + suffix];
      assert r[..|r| - 1] == base[..|base| - 1];
      r
    else
      var r := base + ["runtime_skill_memory." + key + ".json"];
      assert r[..|r| - 1] == base;
      r
  }

  // ---------------------------------------------------------------------
  // The Settings class
  // ---------------------------------------------------------------------

  const Modes: set<string> := {"steam", "scrcpy", "bluestack", "adb"}

  predicate IsMode(m: string)
  {
    m in Modes
  }

  predicate IsScenario(s: string)
  {
    s in Scenarios
  }

  /** `apply_config`'s own preset lookup: a scenario branch (falling back to "ura"), then the legacy list. */
  function BranchOf(rawBranch: Json): (Json, Json)
  {
    if !rawBranch.JObj? then (JList([]), JNull)
    else
      var ps := PyGet(rawBranch, "presets");
      var active := PyGet(rawBranch, "activePresetId");
      (if ps.JList? then ps else JList([]), if active.JStr? then active else JNull)
  }

  /** Index of the first dict preset whose `id` equals `activeId`, or `|presets|` when none does. */
  function FirstDictWithId(presets: seq<Json>, activeId: Json): (i: nat)
    ensures i <= |presets|
    ensures i < |presets| ==> presets[i].JObj? && PyGet(presets[i], "id") == activeId
    ensures forall k :: 0 <= k < i ==> !(presets[k].JObj? && PyGet(presets[k], "id") == activeId)
    decreases |presets|
  {
    if presets == [] then 0
    else if presets[0].JObj? && PyGet(presets[0], "id") == activeId then 0
    else 1 + FirstDictWithId(presets[1..], activeId)
  }

  /** The preset list and active id `apply_config` reads for `scenario`. */
  function ConfigPresetSource(cfg: Json, scenario: string): (Json, Json)
  {
    var scenarios := PyGet(cfg, "scenarios");
    var b0 := if scenarios.JObj? then BranchOf(PyGet(scenarios, scenario)) else (JList([]), JNull);
    var b1 := if scenarios.JObj? && !Truthy(b0.0) then BranchOf(PyGet(scenarios, "ura")) else b0;
    if !Truthy(b1.0) then (OrEmpty(PyGet(cfg, "presets")), PyGet(cfg, "activePresetId")) else b1
  }

  /** The preset `apply_config` uses: a dict, `{}` when there is none. */
  function ConfigPreset(cfg: Json, scenario: string): (preset: Json)
    ensures preset.JObj?
  {
    var src := ConfigPresetSource(cfg, scenario);
    var items := Items(src.0);
    var i := FirstDictWithId(items, src.1);
    var preset := if i < |items| && Truthy(items[i]) then items[i]
                  else if items != [] && items[0].JObj? then items[0] else JNull;
    OrEmpty(preset)
  }

  /**
   * Where `apply_config`'s preset comes from: the scenario's branch when its preset list is
   * non-empty, else the "ura" branch when that one's is, else the legacy top-level list; there,
   * the first dict carrying the active id when it is non-empty, else the first preset when it
   * is a dict, else `{}`.
   */
  lemma ConfigPresetChoice(cfg: Json, scenario: string)
    ensures var scenarios := PyGet(cfg, "scenarios");
            var own := BranchOf(PyGet(scenarios, scenario));
            var ura := BranchOf(PyGet(scenarios, "ura"));
            var src := ConfigPresetSource(cfg, scenario);
            (scenarios.JObj? && Truthy(own.0) ==> src == own) &&
            (scenarios.JObj? && !Truthy(own.0) && Truthy(ura.0) ==> src == ura) &&
            (!scenarios.JObj? || (!Truthy(own.0) && !Truthy(ura.0)) ==>
               src == (OrEmpty(PyGet(cfg, "presets")), PyGet(cfg, "activePresetId")))
    ensures var src := ConfigPresetSource(cfg, scenario);
            var items := Items(src.0);
            var i := FirstDictWithId(items, src.1);
            var preset := ConfigPreset(cfg, scenario);
            (i < |items| && Truthy(items[i]) ==> preset == items[i]) &&
            (!(i < |items| && Truthy(items[i])) && items != [] && items[0].JObj? ==> preset == OrEmpty(items[0])) &&
            (!(i < |items| && Truthy(items[i])) && (items == [] || !items[0].JObj?) ==> preset == JObj([]))
  {
  }

  /** `int(v)` falling back to `fallback` when `v` is absent or malformed. */
  function IntOr(d: Json, key: string, fallback: int): int
  {
    ToInt(PyGetOr(d, key, JInt(fallback))).GetOr(fallback)
  }

  /** `NAV_PREFS`: the alarm-clock, star-piece and parfait shop toggles and the Team Trials banner. */
  datatype NavPreferences = NavPreferences(alarmClock: bool, starPieces: bool, parfait: bool, preferredBanner: int)

  /**
   * The navigation preferences `apply_nav_preferences` keeps: the alarm-clock, star-piece and
   * parfait shop toggles and the preferred Team Trials banner. A missing or non-dict block falls
   * back to the defaults; the banner is read with `int()`, 2 when that fails, then clamped to 1..3.
   */
  function NavPrefsFrom(nav: Json): (p: NavPreferences)
    ensures 1 <= p.preferredBanner <= 3
    ensures !PyGet(nav, "shop").JObj? ==> p.alarmClock && !p.starPieces && !p.parfait
    ensures !PyGet(nav, "team_trials").JObj? || Field(PyGet(nav, "team_trials"), "preferred_banner").None? ==>
              p.preferredBanner == 2
    ensures var team := PyGet(nav, "team_trials");
            team.JObj? && Field(team, "preferred_banner").Some? ==>
              var n := ToInt(Field(team, "preferred_banner").value);
              p.preferredBanner == if n.Some? then ClampInt(1, 3, n.value) else 2
  {
    var shop := PyGet(nav, "shop");
    var shop' := if shop.JObj? then shop else JObj([]);
    var team := PyGet(nav, "team_trials");
    var team' := if team.JObj? then team else JObj([]);
    NavPreferences(Truthy(PyGetOr(shop', "alarm_clock", JBool(true))), Truthy(PyGetOr(shop', "star_pieces", JBool(false))),
                   Truthy(PyGetOr(shop', "parfait", JBool(false))), ClampInt(1, 3, IntOr(team', "preferred_banner", 2)))
  }

  /** The `general` block of a config. */
  function General(cfg: Json): Json
  {
    OrEmpty(PyGetOr(cfg, "general", JObj([])))
  }

  /** The `general.advanced` block of a config. */
  function Advanced(cfg: Json): Json
  {
    OrEmpty(PyGetOr(General(cfg), "advanced", JObj([])))
  }

  /** The `general.advanced` values `apply_config` converts without a fallback must convert. */
  predicate ConfigConverts(cfg: Json)
  {
    var adv := Advanced(cfg);
    (Field(adv, "undertrainThreshold").None? || CoerceFloat(PyGet(adv, "undertrainThreshold")).Some?) &&
    (Field(adv, "topStatsFocus").None? || ToInt(PyGet(adv, "topStatsFocus")).Some?)
  }

  lemma LowerModeIsMode(m: string)
    requires m in Modes
    ensures Lower(m) == m
  {
  }

  /** The new mode: the configured one when it is known, else the previous one. */
  function ModeAfter(cfg: Json, previous: string): (m: string)
    requires IsMode(previous)
    ensures IsMode(m)
  {
    var given := Field(General(cfg), "mode");
    if given.None? then previous
    else
      var raw := Lower(Strip(Str(given.value)));
      if raw in Modes then raw else previous
  }

  /**
   * `ModeAfter` is the source's `str(g.get("mode", MODE)).strip().lower()`,
   * kept when it is a known mode and replaced by `MODE.lower()` otherwise.
   */
  lemma ModeAfterCases(cfg: Json, previous: string)
    requires IsMode(previous)
    ensures var raw := Lower(Strip(Str(PyGetOr(General(cfg), "mode", JStr(previous)))));
            ModeAfter(cfg, previous) == if raw in Modes then raw else Lower(previous)
  {
    LowerModeIsMode(previous);
    if Field(General(cfg), "mode").None? {
      StripNoEdge(previous);
      assert !IsSpace(previous[0]) && !IsSpace(previous[|previous| - 1]);
    }
  }

  /** The configured scenario, normalised; the previous one when none is configured. */
  function ScenarioAfter(cfg: Json, previous: string): (s: string)
    requires IsScenario(previous)
    ensures IsScenario(s)
  {
    var given := Field(General(cfg), "activeScenario");
    if given.None? then previous else NormalizeScenario(Lower(Strip(Str(given.value))))
  }

  /** `ScenarioAfter` is the source's `normalize_scenario(str(g.get("activeScenario", ACTIVE_SCENARIO)).strip().lower())`. */
  lemma ScenarioAfterCases(cfg: Json, previous: string)
    requires IsScenario(previous)
    ensures ScenarioAfter(cfg, previous) ==
              NormalizeScenario(Lower(Strip(Str(PyGetOr(General(cfg), "activeScenario", JStr(previous))))))
  {
    if Field(General(cfg), "activeScenario").None? {
      NormalizedIsClean(previous);
      NormalizeScenarioIdempotent(previous);
      assert NormalizeScenario(previous) == previous by { NormalizeScenarioCases(previous); }
    }
  }

  /** `UNDERTRAIN_THRESHOLD`: the configured percentage clamped to [1, 20]. */
  function UndertrainAfter(cfg: Json, previous: real): (t: real)
    requires ConfigConverts(cfg)
    ensures 1.0 <= t <= 20.0
  {
    ClampReal(1.0, 20.0, CoerceFloat(PyGetOr(Advanced(cfg), "undertrainThreshold", JFloat(previous))).value)
  }

  /** `TOP_STATS_FOCUS`: clamped to [1, 5]. */
  function TopStatsAfter(cfg: Json, previous: int): (t: int)
    requires ConfigConverts(cfg)
    ensures 1 <= t <= 5
  {
    ClampInt(1, 5, ToInt(PyGetOr(Advanced(cfg), "topStatsFocus", JInt(previous))).value)
  }

  /** `SKILL_CHECK_INTERVAL`: clamped to [1, 12] half-months; malformed keeps the previous value. */
  function SkillCheckIntervalAfter(cfg: Json, previous: int): (t: int)
    ensures 1 <= t <= 12
  {
    ClampInt(1, 12, IntOr(Advanced(cfg), "skillCheckInterval", previous))
  }

  /** `SKILL_PTS_DELTA`: clamped to [0, 2000]; malformed keeps the previous value. */
  function SkillPtsDeltaAfter(cfg: Json, previous: int): (t: int)
    ensures 0 <= t <= 2000
  {
    ClampInt(0, 2000, IntOr(Advanced(cfg), "skillPtsDelta", previous))
  }

  /** `MINIMUM_SKILL_PTS`: the preset's value, else the legacy general one, never negative. */
  function MinimumSkillPtsAfter(cfg: Json, preset: Json, previous: int): (p: int)
    requires previous >= 0
    ensures p >= 0
  {
    var g := General(cfg);
    var raw := PyGet(preset, "skillPtsCheck");
    var value := if raw.JNull? then PyGetOr(g, "skillPtsCheck", JInt(previous)) else raw;
    var pts := ToInt(value);
    if pts.Some? then (if pts.value < 0 then 0 else pts.value)
    else
      var legacy := ToInt(PyGetOr(g, "skillPtsCheck", JInt(previous)));
      if legacy.Some? then (if legacy.value < 0 then 0 else legacy.value) else previous
  }

  /** The keys whose priority differs from the default (`custom_keys`). */
  function CustomKeys(priorities: Dicts.Dict<SupportKey, SupportPriority>): set<SupportKey>
  {
    set i | 0 <= i < |priorities| && PriorityIsCustom(priorities[i].1) :: priorities[i].0
  }

  /** A key is custom exactly when the priority stored under it is not the default. */
  lemma CustomKeysMeaning(priorities: Dicts.Dict<SupportKey, SupportPriority>, k: SupportKey)
    requires Dicts.UniqueKeys(priorities)
    ensures k in CustomKeys(priorities) <==>
            Dicts.Lookup(priorities, k).Some? && PriorityIsCustom(Dicts.Lookup(priorities, k).value)
  {
    if k in CustomKeys(priorities) {
      var i :| 0 <= i < |priorities| && PriorityIsCustom(priorities[i].1) && priorities[i].0 == k;
      Dicts.KeyAt(priorities, i);
    }
  }

  class Settings {
    var mode: string
    var activeScenario: string
    var undertrainThreshold: real
    var topStatsFocus: int
    var skillCheckInterval: int
    var skillPtsDelta: int
    var minimumSkillPts: int
    var unityCupAdvanced: UnityCupAdvanced
    var supportDeck: seq<DeckCard>
    var supportPriorities: Dicts.Dict<SupportKey, SupportPriority>
    var supportAvoidEnergy: Dicts.Dict<SupportKey, bool>
    var customPriorityKeys: set<SupportKey>
    var prioritiesHaveCustomization: bool
    var navPrefs: NavPreferences

    /** The bounds every clamped setting keeps. */
    predicate Valid()
      reads this
    {
      IsMode(mode) && IsScenario(activeScenario) &&
      1.0 <= undertrainThreshold <= 20.0 && 1 <= topStatsFocus <= 5 &&
      1 <= skillCheckInterval <= 12 && 0 <= skillPtsDelta <= 2000 && minimumSkillPts >= 0 &&
      1 <= navPrefs.preferredBanner <= 3
    }

    /** The settings `apply_config` reads from the `general` block. */
    function GeneralValues(): (string, string, real, int, int, int)
      reads this
    {
      (mode, activeScenario, undertrainThreshold, topStatsFocus, skillCheckInterval, skillPtsDelta)
    }

    /** The preset-dependent values: the Unity Cup block and the minimum skill points. */
    function PresetValues(): (UnityCupAdvanced, int)
      reads this
    {
      (unityCupAdvanced, minimumSkillPts)
    }

    /** The support deck, its two maps and the customisation summary. */
    function Support(): (seq<DeckCard>, Dicts.Dict<SupportKey, SupportPriority>, Dicts.Dict<SupportKey, bool>, set<SupportKey>, bool)
      reads this
    {
      (supportDeck, supportPriorities, supportAvoidEnergy, customPriorityKeys, prioritiesHaveCustomization)
    }

    /** The built-in defaults (environment overrides are not modelled). */
    constructor ()
      ensures Valid()
      ensures GeneralValues() == ("steam", "ura", 6.0, 3, 3, 60)
      ensures PresetValues() == (AdvancedDefault, 700)
      ensures Support() == ([], [], [], {}, false)
      ensures navPrefs == NavPreferences(true, false, false, 2)
    {
      mode := "steam";
      activeScenario := "ura";
      undertrainThreshold := 6.0;
      topStatsFocus := 3;
      skillCheckInterval := 3;
      skillPtsDelta := 60;
      minimumSkillPts := 700;
      unityCupAdvanced := AdvancedDefault;
      supportDeck := [];
      supportPriorities := [];
      supportAvoidEnergy := [];
      customPriorityKeys := {};
      prioritiesHaveCustomization := false;
      navPrefs := NavPreferences(true, false, false, 2);
    }

    /**
     * The clamping and normalising part of `apply_config`: mode, scenario,
     * the four clamped advanced values, minimum skill points, the Unity Cup
     * block and the support deck.
     */
    method ApplyConfig(cfg: Json)
      requires Valid()
      requires ConfigConverts(cfg)
      modifies this
      ensures Valid()
      ensures mode == ModeAfter(cfg, old(mode))
      ensures activeScenario == ScenarioAfter(cfg, old(activeScenario))
      ensures undertrainThreshold == UndertrainAfter(cfg, old(undertrainThreshold))
      ensures topStatsFocus == TopStatsAfter(cfg, old(topStatsFocus))
      ensures skillCheckInterval == SkillCheckIntervalAfter(cfg, old(skillCheckInterval))
      ensures skillPtsDelta == SkillPtsDeltaAfter(cfg, old(skillPtsDelta))
      ensures unityCupAdvanced ==
                if activeScenario == "unity_cup"
                then NormalizeUnityCupAdvanced(PyGet(ConfigPreset(cfg, activeScenario), "unityCupAdvanced"))
                else AdvancedDefault
      ensures minimumSkillPts == MinimumSkillPtsAfter(cfg, ConfigPreset(cfg, activeScenario), old(minimumSkillPts))
      ensures supportDeck == Deck(ConfigPreset(cfg, activeScenario))
      ensures supportPriorities == PriorityMap(SupportEntries(ConfigPreset(cfg, activeScenario)))
      ensures supportAvoidEnergy == AvoidMap(CardsOf(SupportEntries(ConfigPreset(cfg, activeScenario))))
      ensures customPriorityKeys == CustomKeys(supportPriorities)
      ensures prioritiesHaveCustomization <==> customPriorityKeys != {}
      ensures navPrefs == old(navPrefs)
    {
      ApplyGeneral(cfg);
      ApplyPreset(cfg, ConfigPreset(cfg, activeScenario));
    }

    /** Mode, scenario and the four clamped advanced values of `apply_config`. */
    method ApplyGeneral(cfg: Json)
      requires Valid()
      requires ConfigConverts(cfg)
      modifies this
      ensures Valid()
      ensures mode == ModeAfter(cfg, old(mode))
      ensures activeScenario == ScenarioAfter(cfg, old(activeScenario))
      ensures undertrainThreshold == UndertrainAfter(cfg, old(undertrainThreshold))
      ensures topStatsFocus == TopStatsAfter(cfg, old(topStatsFocus))
      ensures skillCheckInterval == SkillCheckIntervalAfter(cfg, old(skillCheckInterval))
      ensures skillPtsDelta == SkillPtsDeltaAfter(cfg, old(skillPtsDelta))
      ensures PresetValues() == old(PresetValues()) && Support() == old(Support()) && navPrefs == old(navPrefs)
    {
      var m, sc, u, t, i, d :=
        ModeAfter(cfg, mode), ScenarioAfter(cfg, activeScenario), UndertrainAfter(cfg, undertrainThreshold),
        TopStatsAfter(cfg, topStatsFocus), SkillCheckIntervalAfter(cfg, skillCheckInterval),
        SkillPtsDeltaAfter(cfg, skillPtsDelta);
      SetGeneral(m, sc, u, t, i, d);
    }

    /** Stores the six general settings and nothing else. */
    method SetGeneral(m: string, sc: string, u: real, t: int, i: int, d: int)
      requires Valid()
      requires IsMode(m) && IsScenario(sc) && 1.0 <= u <= 20.0 && 1 <= t <= 5 && 1 <= i <= 12 && 0 <= d <= 2000
      modifies this
      ensures Valid()
      ensures GeneralValues() == (m, sc, u, t, i, d)
      ensures PresetValues() == old(PresetValues()) && Support() == old(Support()) && navPrefs == old(navPrefs)
    {
      mode, activeScenario, undertrainThreshold, topStatsFocus, skillCheckInterval, skillPtsDelta := m, sc, u, t, i, d;
    }

    /** The preset-dependent part of `apply_config`: Unity Cup block, minimum skill points, support deck. */
    method ApplyPreset(cfg: Json, preset: Json)
      requires Valid()
      modifies this
      ensures Valid()
      ensures unityCupAdvanced ==
                if activeScenario == "unity_cup" then NormalizeUnityCupAdvanced(PyGet(preset, "unityCupAdvanced"))
                else AdvancedDefault
      ensures minimumSkillPts == MinimumSkillPtsAfter(cfg, preset, old(minimumSkillPts))
      ensures supportDeck == Deck(preset)
      ensures supportPriorities == PriorityMap(SupportEntries(preset))
      ensures supportAvoidEnergy == AvoidMap(CardsOf(SupportEntries(preset)))
      ensures customPriorityKeys == CustomKeys(supportPriorities)
      ensures prioritiesHaveCustomization <==> customPriorityKeys != {}
      ensures GeneralValues() == old(GeneralValues()) && navPrefs == old(navPrefs)
    {
      var adv := if activeScenario == "unity_cup" then NormalizeUnityCupAdvanced(PyGet(preset, "unityCupAdvanced"))
                 else AdvancedDefault;
      var pts := MinimumSkillPtsAfter(cfg, preset, minimumSkillPts);
      LoadSupportDeck(preset);
      SetPresetValues(adv, pts);
    }

    /** Stores the Unity Cup block and the minimum skill points; no other setting changes. */
    method SetPresetValues(adv: UnityCupAdvanced, pts: int)
      modifies this
      ensures unityCupAdvanced == adv && minimumSkillPts == pts
      ensures GeneralValues() == old(GeneralValues()) && Support() == old(Support()) && navPrefs == old(navPrefs)
    {
      unityCupAdvanced := adv;
      minimumSkillPts := pts;
    }

    /** The support-deck part of `apply_config`; no other setting changes. */
    method LoadSupportDeck(preset: Json)
      modifies this
      ensures supportDeck == Deck(preset)
      ensures supportPriorities == PriorityMap(SupportEntries(preset))
      ensures supportAvoidEnergy == AvoidMap(CardsOf(SupportEntries(preset)))
      ensures customPriorityKeys == CustomKeys(supportPriorities)
      ensures prioritiesHaveCustomization <==> customPriorityKeys != {}
      ensures GeneralValues() == old(GeneralValues()) && PresetValues() == old(PresetValues()) && navPrefs == old(navPrefs)
    {
      var deck, priorities, avoid := ExtractSupportPriorities(preset);
      var keys := CustomKeys(priorities);
      SetSupport(deck, priorities, avoid, keys, keys != {});
    }

    /** Stores the support-deck settings; no other setting changes. */
    method SetSupport(deck: seq<DeckCard>, priorities: Dicts.Dict<SupportKey, SupportPriority>,
                      avoid: Dicts.Dict<SupportKey, bool>, keys: set<SupportKey>, customized: bool)
      modifies this
      ensures supportDeck == deck && supportPriorities == priorities && supportAvoidEnergy == avoid
      ensures customPriorityKeys == keys && prioritiesHaveCustomization == customized
      ensures GeneralValues() == old(GeneralValues()) && PresetValues() == old(PresetValues()) && navPrefs == old(navPrefs)
    {
      supportDeck := deck;
      supportPriorities := priorities;
      supportAvoidEnergy := avoid;
      customPriorityKeys := keys;
      prioritiesHaveCustomization := customized;
    }

    /** `apply_nav_preferences`: shop toggles with defaults, banner clamped to 1..3. */
    method ApplyNavPreferences(nav: Json)
      requires Valid()
      modifies this
      ensures Valid()
      ensures navPrefs == NavPrefsFrom(nav)
      ensures GeneralValues() == old(GeneralValues()) && PresetValues() == old(PresetValues()) && Support() == old(Support())
    {
      navPrefs := NavPrefsFrom(nav);
    }

    /** `get_team_trials_banner_pref`: always a banner in 1..3. */
    function TeamTrialsBannerPref(): (b: int)
      reads this
      requires Valid()
      ensures 1 <= b <= 3
      ensures b == navPrefs.preferredBanner
    {
      ClampInt(1, 3, navPrefs.preferredBanner)
    }
  }

}
