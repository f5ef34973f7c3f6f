/**
 * The in-memory part of the skill memory: per skill name and grade, when a
 * skill was first and last seen or bought and how many times, plus the run
 * metadata that decides whether a stored memory belongs to the current run.
 */
module SkillMemory {
  import opened Wrappers
  import opened Strings

  const AnyGrade := "__any__"
  /** `STALE_SECONDS`: six hours. */
  const StaleSeconds: real := 21600.0

  /** One grade's record of a skill. */
  datatype GradeEntry = GradeEntry(firstDate: Option<string>, firstTurn: Option<int>,
                                   lastDate: Option<string>, lastTurn: Option<int>,
                                   count: int, updatedAt: real)

  /** Skill name to grade key to record. */
  type SkillMap = map<string, map<string, GradeEntry>>

  datatype Bucket = SkillsSeen | SkillsBought

  /** Python truthiness of an optional string. */
  predicate Given(s: Option<string>)
  {
    s.Some? && s.value != ""
  }

  /** `_grade_key`: a missing or blank grade is the any-grade key, any other grade is trimmed. */
  function GradeKey(grade: Option<string>): (k: string)
    ensures grade.None? || Strip(grade.value) == "" ==> k == AnyGrade
    ensures grade.Some? && Strip(grade.value) != "" ==> k == Strip(grade.value)
    ensures k != "" && NoEdgeSpace(k)
  {
    if grade.None? then AnyGrade
    else
      var trimmed := Strip(grade.value);
      if trimmed == "" then AnyGrade else trimmed
  }

  /** A grade key is its own grade key. */
  lemma GradeKeyIdempotent(grade: Option<string>)
    ensures GradeKey(Some(GradeKey(grade))) == GradeKey(grade)
  {
    StripNoEdge(GradeKey(grade));
  }

  /** The record `_record` creates for a grade not seen before. */
  function NewEntry(dateKey: Option<string>, turn: Option<int>, increment: bool, boughts: int, now: real): GradeEntry
  {
    GradeEntry(dateKey, turn, dateKey, turn, if increment then boughts else 0, now)
  }

  /** The update `_record` makes to an existing record. */
  function UpdateEntry(e: GradeEntry, dateKey: Option<string>, turn: Option<int>, increment: bool, now: real): GradeEntry
  {
    GradeEntry(
      if e.firstDate.None? && Given(dateKey) then dateKey else e.firstDate,
      if e.firstTurn.None? && turn.Some? then turn else e.firstTurn,
      if Given(dateKey) then dateKey else e.lastDate,
      if turn.Some? then turn else e.lastTurn,
      if increment then e.count + 1 else e.count,
      now)
  }

  /** `_record` on one bucket. */
  function RecordIn(m: SkillMap, skillName: string, grade: Option<string>, dateKey: Option<string>,
                    turn: Option<int>, increment: bool, boughts: int, now: real): SkillMap
  {
    var name := Strip(skillName);
    if name == "" then m
    else
      var gk := GradeKey(grade);
      var gm := if name in m then m[name] else map[];
      var e := if gk in gm then UpdateEntry(gm[gk], dateKey, turn, increment, now) else NewEntry(dateKey, turn, increment, boughts, now);
      m[name := gm[gk := e]]
  }

  /** A blank skill name records nothing. */
  lemma RecordBlank(m: SkillMap, skillName: string, grade: Option<string>, dateKey: Option<string>,
                    turn: Option<int>, increment: bool, boughts: int, now: real)
    requires Strip(skillName) == ""
    ensures RecordIn(m, skillName, grade, dateKey, turn, increment, boughts, now) == m
  {
  }

  /**
   * A new grade starts with the given count, date and turn as both first
   * and last; a known grade counts one more, keeps its first date and turn
   * once set, and takes the latest date and turn given.
   */
  lemma RecordEntry(m: SkillMap, skillName: string, grade: Option<string>, dateKey: Option<string>,
                    turn: Option<int>, increment: bool, boughts: int, now: real)
    requires Strip(skillName) != ""
    ensures var name := Strip(skillName); var gk := GradeKey(grade);
            var r := RecordIn(m, skillName, grade, dateKey, turn, increment, boughts, now);
            name in r && gk in r[name] &&
            var e := r[name][gk];
            (if name in m && gk in m[name] then
               var old_ := m[name][gk];
               e.count == old_.count + (if increment then 1 else 0) &&
               (old_.firstDate.Some? ==> e.firstDate == old_.firstDate) &&
               (old_.firstTurn.Some? ==> e.firstTurn == old_.firstTurn) &&
               e.lastDate == (if Given(dateKey) then dateKey else old_.lastDate) &&
               e.lastTurn == (if turn.Some? then turn else old_.lastTurn)
             else
               e.count == (if increment then boughts else 0) &&
               e.firstDate == dateKey && e.lastDate == dateKey && e.firstTurn == turn && e.lastTurn == turn) &&
            e.updatedAt == now
  {
  }

  /** Recording touches one skill's one grade and nothing else. */
  lemma RecordFrame(m: SkillMap, skillName: string, grade: Option<string>, dateKey: Option<string>,
                    turn: Option<int>, increment: bool, boughts: int, now: real)
    ensures var name := Strip(skillName); var gk := GradeKey(grade);
            var r := RecordIn(m, skillName, grade, dateKey, turn, increment, boughts, now);
            r.Keys == m.Keys + (if name == "" then {} else {name}) &&
            (forall n :: n in m && n != name ==> r[n] == m[n]) &&
            (name != "" && name in m ==>
               r[name].Keys == m[name].Keys + {gk} &&
               forall g :: g in m[name] && g != gk ==> r[name][g] == m[name][g])
  {
  }

  /** `_has` on one bucket: any grade when none is asked for, else that grade or the any-grade record. */
  function Has(m: SkillMap, skillName: string, grade: Option<string>): bool
  {
    var name := Strip(skillName);
    if name == "" || name !in m then false
    else if grade.None? then |m[name]| > 0
    else GradeKey(grade) in m[name] || AnyGrade in m[name]
  }

  /** After recording, the skill is known under that grade and under no grade. */
  lemma RecordThenHas(m: SkillMap, skillName: string, grade: Option<string>, dateKey: Option<string>,
                      turn: Option<int>, increment: bool, boughts: int, now: real)
    requires Strip(skillName) != ""
    ensures var r := RecordIn(m, skillName, grade, dateKey, turn, increment, boughts, now);
            Has(r, skillName, grade) && Has(r, skillName, None)
  {
    var name := Strip(skillName);
    var r := RecordIn(m, skillName, grade, dateKey, turn, increment, boughts, now);
    assert GradeKey(grade) in r[name];
  }

  /** A record stored under the any-grade key answers for every grade. */
  lemma AnyGradeAnswersAll(m: SkillMap, skillName: string, grade: string)
    requires Strip(skillName) in m && AnyGrade in m[Strip(skillName)] && Strip(skillName) != ""
    ensures Has(m, skillName, Some(grade)) && Has(m, skillName, None)
  {
  }

  /** `get_bought_count` on the bought bucket: the exact grade's count, else the any-grade count, else 0. */
  function BoughtCount(m: SkillMap, skillName: string, grade: Option<string>): (c: int)
    ensures c != 0 ==> Has(m, skillName, grade)
  {
    var name := Strip(skillName);
    if name == "" || name !in m then 0
    else
      var gm := m[name];
      var gk := GradeKey(grade);
      if gk in gm then gm[gk].count
      else if AnyGrade in gm then gm[AnyGrade].count
      else 0
  }

  /** Buying a skill again counts one more; buying it for the first time counts the given amount. */
  lemma RecordThenCount(m: SkillMap, skillName: string, grade: Option<string>, dateKey: Option<string>,
                        turn: Option<int>, boughts: int, now: real)
    requires Strip(skillName) != ""
    ensures var name := Strip(skillName); var gk := GradeKey(grade);
            BoughtCount(RecordIn(m, skillName, grade, dateKey, turn, true, boughts, now), skillName, grade) ==
            if name in m && gk in m[name] then m[name][gk].count + 1 else boughts
  {
  }

  // ---------------------------------------------------------------------
  // Run metadata
  // ---------------------------------------------------------------------

  /** The stored run metadata. */
  datatype RunMeta = RunMeta(presetId: Option<string>, dateKey: Option<string>, dateIndex: Option<int>,
                             scenario: Option<string>, updatedAt: real)

  /** `str(s).strip().lower()`. */
  function NormScenario(s: string): string
  {
    Lower(Strip(s))
  }

  /** `set_run_metadata` without the save: new preset, date and scenario stored, the date index only raised. */
  function SetMeta(meta: RunMeta, own: Option<string>, presetId: Option<string>, dateKey: Option<string>,
                   dateIndex: Option<int>, scenario: Option<string>, now: real): (r: RunMeta)
    ensures meta.dateIndex.Some? ==> r.dateIndex.Some? && r.dateIndex.value >= meta.dateIndex.value
    ensures dateIndex.Some? ==> r.dateIndex.Some? && r.dateIndex.value >= dateIndex.value
  {
    var p := if presetId.Some? && presetId != meta.presetId then presetId else meta.presetId;
    var k := if dateKey.Some? && dateKey != meta.dateKey then dateKey else meta.dateKey;
    var raise := dateIndex.Some? && (meta.dateIndex.None? || dateIndex.value > meta.dateIndex.value);
    var i := if raise then dateIndex else meta.dateIndex;
    var sv := if scenario.Some? then scenario else own;
    var s := if sv.Some? && Some(NormScenario(sv.value)) != meta.scenario then Some(NormScenario(sv.value)) else meta.scenario;
    var changed := p != meta.presetId || k != meta.dateKey || raise || s != meta.scenario;
    RunMeta(p, k, i, s, if changed then now else meta.updatedAt)
  }

  /** The date index kept is the larger of the stored and the given one. */
  lemma SetMetaIndexIsMax(meta: RunMeta, own: Option<string>, presetId: Option<string>, dateKey: Option<string>,
                          dateIndex: Option<int>, scenario: Option<string>, now: real)
    ensures var r := SetMeta(meta, own, presetId, dateKey, dateIndex, scenario, now);
            r.dateIndex == match (meta.dateIndex, dateIndex)
                           case (None, None) => None
                           case (Some(a), None) => Some(a)
                           case (None, Some(b)) => Some(b)
                           case (Some(a), Some(b)) => Some(if a >= b then a else b)
  {
  }

  /** `_is_stale_gap`: six hours or more since the last update. */
  predicate Stale(meta: RunMeta, now: real)
  {
    now - meta.updatedAt >= StaleSeconds
  }

  /** The stored scenario as `is_compatible_run` reads it: stripped, lower-cased, blank as none. */
  function StoredScenario(meta: RunMeta): Option<string>
  {
    if meta.scenario.Some? && NormScenario(meta.scenario.value) != "" then Some(NormScenario(meta.scenario.value)) else None
  }

  /** `is_compatible_run`. */
  function IsCompatible(meta: RunMeta, own: Option<string>, presetId: Option<string>, dateKey: Option<string>,
                        dateIndex: Option<int>, scenario: Option<string>, now: real): (ok: bool)
    ensures Given(meta.presetId) && Given(presetId) && meta.presetId != presetId ==> !ok
    ensures (Given(meta.dateKey) && Given(dateKey) && meta.dateIndex.Some? && dateIndex.Some? &&
             dateIndex.value < meta.dateIndex.value) ==> !ok
  {
    if Given(meta.presetId) && Given(presetId) && meta.presetId != presetId then false
    else if Given(meta.dateKey) && Given(dateKey) && meta.dateIndex.Some? && dateIndex.Some? && dateIndex.value < meta.dateIndex.value then false
    else if Given(meta.dateKey) && Given(dateKey) && !(meta.dateIndex.Some? && dateIndex.Some?) && meta.dateKey != dateKey then false
    else if Given(meta.dateKey) && dateKey.None? && Stale(meta, now) then false
    else
      var sv := if scenario.Some? then scenario else own;
      var value := if sv.Some? then Some(NormScenario(sv.value)) else None;
      var stored := StoredScenario(meta);
      if Given(value) && stored.Some? && stored != value then false
      else if Given(value) && stored.None? then false
      else if stored.Some? && !Given(value) then false
      else if Stale(meta, now) && !(Given(meta.dateKey) && Given(dateKey) && meta.dateKey == dateKey) then false
      else true
  }

  lemma NormScenarioIdempotent(s: string)
    ensures NormScenario(NormScenario(s)) == NormScenario(s)
  {
    var t := Strip(s);
    var l := Lower(t);
    assert NoEdgeSpace(l) by {
      if |l| > 0 {
        assert !IsSpace(t[0]) && !IsSpace(t[|t| - 1]);
        LowerKeepsSpace(t[0]);
        LowerKeepsSpace(t[|t| - 1]);
      }
    }
    StripNoEdge(l);
    LowerIdempotent(t);
  }

  lemma LowerKeepsSpace(c: char)
    ensures IsSpace(LowerChar(c)) == IsSpace(c)
  {
  }

  /**
   * Right after `set_run_metadata` with a full snapshot, the same snapshot is
   * compatible, provided it does not go back in time.
   */
  lemma CompatibleAfterSet(meta: RunMeta, own: Option<string>, presetId: string, dateKey: string,
                           dateIndex: int, scenario: string, now: real)
    requires dateKey != ""
    requires meta.dateIndex.None? || meta.dateIndex.value <= dateIndex
    ensures IsCompatible(SetMeta(meta, own, Some(presetId), Some(dateKey), Some(dateIndex), Some(scenario), now),
                         own, Some(presetId), Some(dateKey), Some(dateIndex), Some(scenario), now)
  {
    NormScenarioIdempotent(scenario);
  }

  // ---------------------------------------------------------------------
  // The manager
  // ---------------------------------------------------------------------

  /** `SkillMemoryManager` after construction, without the file it loads and saves. */
  class SkillMemoryManager {
    /** The manager's own scenario, normalised. */
    const ownScenario: Option<string>
    var meta: RunMeta
    var seen: SkillMap
    var bought: SkillMap

    /** `__init__` when there is no stored file: the empty memory. */
    constructor (scenario: Option<string>, now: real)
      ensures ownScenario == (if Given(scenario) then Some(NormScenario(scenario.value)) else None)
      ensures meta == RunMeta(None, None, None, ownScenario, now) && seen == map[] && bought == map[]
    {
      ownScenario := if Given(scenario) then Some(NormScenario(scenario.value)) else None;
      meta := RunMeta(None, None, None, if Given(scenario) then Some(NormScenario(scenario.value)) else None, now);
      seen := map[];
      bought := map[];
    }

    function BucketMap(bucket: Bucket): SkillMap
      reads this
    {
      if bucket == SkillsSeen then seen else bought
    }

    /** `_record` without the save: one bucket updated, the other and the metadata unchanged. */
    method Record(bucket: Bucket, skillName: string, grade: Option<string>, dateKey: Option<string>,
                  turn: Option<int>, increment: bool, boughts: int, now: real)
      modifies this
      ensures bucket == SkillsSeen ==> seen == RecordIn(old(seen), skillName, grade, dateKey, turn, increment, boughts, now) && bought == old(bought)
      ensures bucket == SkillsBought ==> bought == RecordIn(old(bought), skillName, grade, dateKey, turn, increment, boughts, now) && seen == old(seen)
      ensures meta == old(meta)
    {
      var name := Strip(skillName);
      if name == "" {
        return;
      }
      var gk := GradeKey(grade);
      var collection := if bucket == SkillsSeen then seen else bought;
      var gradeMap := if name in collection then collection[name] else map[];
      var entry: GradeEntry;
      if gk !in gradeMap {
        entry := NewEntry(dateKey, turn, increment, boughts, now);
      } else {
        entry := UpdateEntry(gradeMap[gk], dateKey, turn, increment, now);
      }
      collection := collection[name := gradeMap[gk := entry]];
      if bucket == SkillsSeen {
        seen := collection;
      } else {
        bought := collection;
      }
    }

    /** `has_seen` / `has_bought`. */
    function HasIn(bucket: Bucket, skillName: string, grade: Option<string>): bool
      reads this
    {
      Has(BucketMap(bucket), skillName, grade)
    }

    /** `get_bought_count`. */
    function GetBoughtCount(skillName: string, grade: Option<string>): int
      reads this
    {
      BoughtCount(bought, skillName, grade)
    }

    /** `set_run_metadata` with `commit=False`. */
    method SetRunMetadata(presetId: Option<string>, dateKey: Option<string>, dateIndex: Option<int>,
                          scenario: Option<string>, now: real)
      modifies this
      ensures meta == SetMeta(old(meta), ownScenario, presetId, dateKey, dateIndex, scenario, now)
      ensures seen == old(seen) && bought == old(bought)
    {
      var p := meta.presetId;
      var k := meta.dateKey;
      var i := meta.dateIndex;
      var sc := meta.scenario;
      var changed := false;
      if presetId.Some? && presetId != p {
        p := presetId;
        changed := true;
      }
      if dateKey.Some? && dateKey != k {
        k := dateKey;
        changed := true;
      }
      if dateIndex.Some? && (i.None? || dateIndex.value > i.value) {
        i := dateIndex;
        changed := true;
      }
      var scenarioValue := if scenario.Some? then scenario else ownScenario;
      if scenarioValue.Some? && Some(NormScenario(scenarioValue.value)) != sc {
        sc := Some(NormScenario(scenarioValue.value));
        changed := true;
      }
      meta := RunMeta(p, k, i, sc, if changed then now else meta.updatedAt);
    }

    /** `is_compatible_run` at time `now`. */
    function IsCompatibleRun(presetId: Option<string>, dateKey: Option<string>, dateIndex: Option<int>,
                             scenario: Option<string>, now: real): bool
      reads this
    {
      IsCompatible(meta, ownScenario, presetId, dateKey, dateIndex, scenario, now)
    }

    /** `reset(persist=False)`: the empty memory. */
    method Reset(now: real)
      modifies this
      ensures meta == RunMeta(None, None, None, ownScenario, now) && seen == map[] && bought == map[]
    {
      meta := RunMeta(None, None, None, ownScenario, now);
      seen := map[];
      bought := map[];
    }
  }
}
