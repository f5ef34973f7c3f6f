/**
 * The scenario agent's bookkeeping: the day key, the delayed release of
 * the lobby's one-shot race-skip guard after a planned race, the required
 * skills a support card still lacks, and the deferred skill re-check a
 * hint schedules.
 */
module AgentScenario {
  import opened Wrappers
  import opened Strings
  import opened Sorting
  import opened JsonValues
  import opened SkillNames
  import SkillMemory
  import Lobby

  // ---------------------------------------------------------------------
  // Day key
  // ---------------------------------------------------------------------

  /** `f"{n:02d}"`: at least two characters, zero-padded on the left. */
  function Pad2(n: int): (s: string)
    ensures 0 <= n < 10 ==> |s| == 2 && s[0] == '0'
    ensures n >= 0 ==> AllDigits(s)
  {
    if 0 <= n < 10 then ['0', DigitChar(n)] else IntToString(n)
  }

  /** The padded text of a natural number still reads back as that number. */
  lemma Pad2Value(n: nat)
    ensures DigitsValue(Pad2(n)) == n
  {
    if n < 10 {
      assert Pad2(n)[..1] == ['0'];
      assert DigitsValue(['0']) == 0;
    } else {
      NatToStringRoundTrip(n);
    }
  }

  /** `_today_date_key`: `Y<year>-<month:02>-<half>`, or none without a month or with a half other than 1 or 2. */
  function TodayDateKey(di: Option<Lobby.DateInfo>): (r: Option<string>)
    ensures r.Some? <==> di.Some? && di.value.month.Some? && di.value.half.Some? &&
                         (di.value.half.value == 1 || di.value.half.value == 2)
    ensures r.Some? ==> |r.value| > 0 && r.value[0] == 'Y'
  {
    if di.None? || di.value.month.None? || di.value.half.None? then None
    else if di.value.half.value != 1 && di.value.half.value != 2 then None
    else Some("Y" + IntToString(di.value.yearCode) + "-" + Pad2(di.value.month.value) + "-" + IntToString(di.value.half.value))
  }

  lemma DigitsHaveNoDash(s: string)
    requires AllDigits(s)
    ensures !HasChar(s, '-')
  {
  }

  /** A dash after a dash-free head splits the text in one way only. */
  lemma SplitAtDash(a: string, b: string, c: string, d: string)
    requires !HasChar(a, '-') && !HasChar(c, '-')
    requires a + "-" + b == c + "-" + d
    ensures a == c && b == d
  {
    var s := a + "-" + b;
    FindAfterPrefix(a, b, '-');
    FindAfterPrefix(c, d, '-');
    assert s[..|a|] == a && s[|a| + 1..] == b;
    assert s[..|c|] == c && s[|c| + 1..] == d;
  }

  /** The key is "Y", then year, padded month and half joined by dashes. */
  lemma DateKeyShape(a: Lobby.DateInfo)
    requires TodayDateKey(Some(a)).Some?
    ensures TodayDateKey(Some(a)).value[1..] ==
            IntToString(a.yearCode) + "-" + (Pad2(a.month.value) + "-" + IntToString(a.half.value))
  {
  }

  /** Three digit-headed parts joined by dashes come apart again. */
  lemma SplitThree(ya: string, ma: string, ha: string, yb: string, mb: string, hb: string)
    requires AllDigits(ya) && AllDigits(ma) && AllDigits(yb) && AllDigits(mb)
    requires ya + "-" + (ma + "-" + ha) == yb + "-" + (mb + "-" + hb)
    ensures ya == yb && ma == mb && ha == hb
  {
    DigitsHaveNoDash(ya);
    DigitsHaveNoDash(yb);
    SplitAtDash(ya, ma + "-" + ha, yb, mb + "-" + hb);
    DigitsHaveNoDash(ma);
    DigitsHaveNoDash(mb);
    SplitAtDash(ma, ha, mb, hb);
  }

  /** Two days with non-negative year and month share a key exactly when year, month and half agree. */
  lemma DateKeyIdentifiesDay(a: Lobby.DateInfo, b: Lobby.DateInfo)
    requires TodayDateKey(Some(a)).Some? && TodayDateKey(Some(b)).Some?
    requires a.yearCode >= 0 && b.yearCode >= 0 && a.month.value >= 0 && b.month.value >= 0
    ensures TodayDateKey(Some(a)) == TodayDateKey(Some(b)) <==>
            a.yearCode == b.yearCode && a.month == b.month && a.half == b.half
  {
    if TodayDateKey(Some(a)) == TodayDateKey(Some(b)) {
      DateKeyShape(a);
      DateKeyShape(b);
      SplitThree(IntToString(a.yearCode), Pad2(a.month.value), IntToString(a.half.value),
                 IntToString(b.yearCode), Pad2(b.month.value), IntToString(b.half.value));
      ParseIntToString(a.yearCode);
      ParseIntToString(b.yearCode);
      ParseIntToString(a.half.value);
      ParseIntToString(b.half.value);
      Pad2Value(a.month.value);
      Pad2Value(b.month.value);
    }
  }

  // ---------------------------------------------------------------------
  // Releasing the race-skip guard
  // ---------------------------------------------------------------------

  /** The pending release (flag, day key, cooldown) and the lobby's one-shot skip guard. */
  datatype ReleaseState = ReleaseState(pending: bool, key: Option<string>, cooldown: int, skipOnce: bool)

  /** No release is half-set: without a pending release there is neither key nor cooldown. */
  predicate ReleaseValid(s: ReleaseState)
  {
    s.cooldown >= 0 && (!s.pending ==> s.key.None? && s.cooldown == 0)
  }

  /** `_schedule_planned_skip_release`: pending from today, waiting at least two ticks. */
  function Schedule(s: ReleaseState, today: Option<string>): (r: ReleaseState)
    ensures r.pending && r.key == today && r.cooldown >= 2 && r.cooldown >= s.cooldown && r.skipOnce == s.skipOnce
  {
    ReleaseState(true, today, if s.cooldown >= 2 then s.cooldown else 2, s.skipOnce)
  }

  /** `_clear_planned_skip_release`. */
  function Clear(s: ReleaseState): (r: ReleaseState)
    ensures ReleaseValid(r) && !r.pending && r.skipOnce == s.skipOnce
  {
    ReleaseState(false, None, 0, s.skipOnce)
  }

  /** Python truthiness of an optional key. */
  predicate Present(k: Option<string>) { k.Some? && k.value != "" }

  /**
   * `_tick_planned_skip_release`. Nothing happens without a pending
   * release; a guard already gone ends it; a running cooldown counts down;
   * at zero the guard is released, whether or not the day has changed.
   */
  function Tick(s: ReleaseState, today: Option<string>): (r: ReleaseState)
    ensures !s.pending ==> r == s
    ensures r.skipOnce <==> s.skipOnce && (!s.pending || s.cooldown > 0)
    ensures s.pending ==> (r.pending <==> s.skipOnce && s.cooldown > 0)
    ensures s.pending && r.pending ==> r.cooldown == s.cooldown - 1 && r.key == s.key
  {
    if !s.pending then s
    else if !s.skipOnce then Clear(s)
    else if s.cooldown > 0 then s.(cooldown := s.cooldown - 1)
    else if Present(s.key) && Present(today) && today != s.key then Clear(s.(skipOnce := false))
    else Clear(s.(skipOnce := false))
  }

  /** The day key plays no part in a tick: both release branches do the same. */
  lemma TickIgnoresDay(s: ReleaseState, a: Option<string>, b: Option<string>)
    ensures Tick(s, a) == Tick(s, b)
  {
  }

  /** Scheduling, clearing and ticking keep the release state well-formed. */
  lemma ReleaseValidKept(s: ReleaseState, today: Option<string>)
    requires ReleaseValid(s)
    ensures ReleaseValid(Schedule(s, today)) && ReleaseValid(Clear(s)) && ReleaseValid(Tick(s, today))
  {
  }

  /** `n` ticks in a row, on days with the given key. */
  function Ticks(s: ReleaseState, n: nat, today: Option<string>): ReleaseState
  {
    if n == 0 then s else Tick(Ticks(s, n - 1, today), today)
  }

  /** While the guard stays set, each tick takes one off the cooldown. */
  lemma {:induction false} CountDown(s: ReleaseState, n: nat, today: Option<string>)
    requires s.pending && s.skipOnce && n <= s.cooldown
    ensures Ticks(s, n, today) == s.(cooldown := s.cooldown - n)
  {
    if n > 0 {
      CountDown(s, n - 1, today);
    }
  }

  /**
   * Once scheduled with the guard set, the guard survives exactly as many
   * ticks as the cooldown and is released, with the release cleared, on
   * the next one.
   */
  lemma {:induction false} ScheduledReleaseTiming(s0: ReleaseState, today: Option<string>, n: nat)
    requires s0.skipOnce
    ensures var s := Schedule(s0, today);
            (n <= s.cooldown ==> Ticks(s, n, today).skipOnce && Ticks(s, n, today).pending) &&
            Ticks(s, s.cooldown + 1, today) == ReleaseState(false, None, 0, false)
  {
    var s := Schedule(s0, today);
    if n <= s.cooldown {
      CountDown(s, n, today);
    }
    CountDown(s, s.cooldown, today);
  }

  // ---------------------------------------------------------------------
  // Required skills
  // ---------------------------------------------------------------------

  /** The strings of a JSON list, in order. */
  function StringItems(items: seq<Json>): (r: seq<string>)
    ensures forall x :: x in r <==> JStr(x) in items
  {
    if |items| == 0 then []
    else
      var init := StringItems(items[..|items| - 1]);
      assert forall j :: j in items <==> j in items[..|items| - 1] || j == items[|items| - 1];
      match items[|items| - 1]
      case JStr(x) => init + [x]
      case _ => init
  }

  /** The `skillsRequiredForPriority` entry of a support's priority settings, as a list of names. */
  function RequiredSkills(cfg: Option<Json>): (r: seq<string>)
    ensures cfg.None? || !cfg.value.JObj? ==> r == []
  {
    if cfg.None? || !cfg.value.JObj? then []
    else
      var raw := Get(cfg.value.fields, "skillsRequiredForPriority");
      if raw.None? || !Truthy(raw.value) then []
      else
        match raw.value
        case JStr(x) => [x]
        case JList(items) => StringItems(items)
        case _ => []
  }

  /** A required skill counts as missing when its canonical name is not blank and was never bought in any grade. */
  predicate StillMissing(bought: SkillMemory.SkillMap, skill: string)
  {
    CanonSkill(skill) != "" && !SkillMemory.Has(bought, CanonSkill(skill), None)
  }

  function MissingTest(bought: SkillMemory.SkillMap): string -> bool
  {
    skill => StillMissing(bought, skill)
  }

  /** `_missing_required_skills_for_priority`. */
  function MissingFor(cfg: Option<Json>, bought: SkillMemory.SkillMap): seq<string>
  {
    Filter(RequiredSkills(cfg), MissingTest(bought))
  }

  /** A skill is reported exactly when it is required and still missing; the order is the configured one. */
  lemma MissingForExact(cfg: Option<Json>, bought: SkillMemory.SkillMap)
    ensures forall x :: x in MissingFor(cfg, bought) <==> x in RequiredSkills(cfg) && StillMissing(bought, x)
    ensures |MissingFor(cfg, bought)| <= |RequiredSkills(cfg)|
  {
    FilterExact(RequiredSkills(cfg), MissingTest(bought));
  }

  /** Buying more never makes a skill missing again. */
  lemma MissingShrinks(cfg: Option<Json>, before: SkillMemory.SkillMap, after: SkillMemory.SkillMap)
    requires forall n :: SkillMemory.Has(before, n, None) ==> SkillMemory.Has(after, n, None)
    ensures forall x :: x in MissingFor(cfg, after) ==> x in MissingFor(cfg, before)
  {
    MissingForExact(cfg, before);
    MissingForExact(cfg, after);
  }

  /** Once a required skill's canonical name is recorded as bought, it is no longer missing. */
  lemma RecordedNotMissing(cfg: Option<Json>, bought: SkillMemory.SkillMap, skill: string, grade: Option<string>,
                           dateKey: Option<string>, turn: Option<int>, boughts: int, now: real)
    requires CanonSkill(skill) != ""
    ensures skill !in MissingFor(cfg, SkillMemory.RecordIn(bought, CanonSkill(skill), grade, dateKey, turn, true, boughts, now))
  {
    var canon := CanonSkill(skill);
    StripOfCanon(skill);
    SkillMemory.RecordThenHas(bought, canon, grade, dateKey, turn, true, boughts, now);
    MissingForExact(cfg, SkillMemory.RecordIn(bought, canon, grade, dateKey, turn, true, boughts, now));
  }

  /** A canonical name has no edge whitespace, so the memory stores it as it is. */
  lemma StripOfCanon(skill: string)
    requires CanonSkill(skill) != ""
    ensures Strip(CanonSkill(skill)) == CanonSkill(skill)
  {
    var d := DropGradeSymbols(skill);
    JoinWordsShape(Words(d));
    StripNoEdge(CanonSkill(skill));
  }

  /** `_canon_skill_name` is the canonical name of the skills flow, with a blank result where that one has none. */
  lemma CanonSkillNameAgrees(name: string)
    ensures CanonicalSkillName(Some(name)) == (if CanonSkill(name) == "" then None else Some(CanonSkill(name)))
  {
    if name == "" {
      WordsOfBlank("");
    }
  }

  /** A support's key: name, rarity and attribute. */
  type SupportKey = (string, string, string)

  /** `_priority_config_for_key`. */
  function PriorityConfigFor(key: Option<SupportKey>, priorities: map<SupportKey, Json>): (r: Option<Json>)
    ensures r.Some? <==> key.Some? && key.value in priorities
  {
    if key.None? || key.value !in priorities then None else Some(priorities[key.value])
  }

  // ---------------------------------------------------------------------
  // The deferred re-check
  // ---------------------------------------------------------------------

  /** A support waiting for a re-check after a hint. */
  datatype Entry = Entry(key: Option<SupportKey>, title: string)

  function EntryMissing(e: Entry, priorities: map<SupportKey, Json>, bought: SkillMemory.SkillMap): seq<string>
  {
    MissingFor(PriorityConfigFor(e.key, priorities), bought)
  }

  function HasMissingTest(priorities: map<SupportKey, Json>, bought: SkillMemory.SkillMap): Entry -> bool
  {
    e => |EntryMissing(e, priorities, bought)| > 0
  }

  /** The entries whose support still lacks a required skill, in order. */
  function WithMissing(entries: seq<Entry>, priorities: map<SupportKey, Json>, bought: SkillMemory.SkillMap): seq<Entry>
  {
    Filter(entries, HasMissingTest(priorities, bought))
  }

  function EntryMissingFn(priorities: map<SupportKey, Json>, bought: SkillMemory.SkillMap): Entry -> seq<string>
  {
    e => EntryMissing(e, priorities, bought)
  }

  /** Every entry's missing skills, one list after the other. */
  function AllMissing(entries: seq<Entry>, priorities: map<SupportKey, Json>, bought: SkillMemory.SkillMap): seq<string>
  {
    FlatMap(entries, EntryMissingFn(priorities, bought))
  }

  /** The skills handed to the skills flow: each missing skill once, in order of first mention. */
  function Targets(entries: seq<Entry>, priorities: map<SupportKey, Json>, bought: SkillMemory.SkillMap): seq<string>
  {
    Dedup(AllMissing(entries, priorities, bought))
  }

  /** The targets are exactly the missing skills of the pending supports, none twice, all required and missing. */
  lemma TargetsExact(entries: seq<Entry>, priorities: map<SupportKey, Json>, bought: SkillMemory.SkillMap)
    ensures var t := Targets(entries, priorities, bought);
            (forall x :: x in t <==> exists k :: 0 <= k < |entries| && x in EntryMissing(entries[k], priorities, bought)) &&
            (forall i, j :: 0 <= i < j < |t| ==> t[i] != t[j]) &&
            (forall x :: x in t ==> StillMissing(bought, x))
  {
    forall x | x in Targets(entries, priorities, bought) ensures StillMissing(bought, x) {
      var k :| 0 <= k < |entries| && x in EntryMissing(entries[k], priorities, bought);
      MissingForExact(PriorityConfigFor(entries[k].key, priorities), bought);
    }
  }

  /** The `if skill not in targets` loop. */
  method AppendNew(targets: seq<string>, ghost acc: seq<string>, items: seq<string>) returns (r: seq<string>)
    requires targets == Dedup(acc)
    ensures r == Dedup(acc + items)
  {
    r := targets;
    assert acc + items[..0] == acc;
    for j := 0 to |items|
      invariant r == Dedup(acc + items[..j])
    {
      assert acc + items[..j + 1] == acc + items[..j] + [items[j]];
      DedupSnoc(acc + items[..j], items[j]);
      if items[j] !in r {
        r := r + [items[j]];
      }
    }
    assert items[..|items|] == items;
  }

  /** The loop over pending entries: the supports still lacking skills and the skills to look for. */
  method Gather(entries: seq<Entry>, priorities: map<SupportKey, Json>, bought: SkillMemory.SkillMap)
    returns (withMissing: seq<Entry>, targets: seq<string>)
    ensures withMissing == WithMissing(entries, priorities, bought)
    ensures targets == Targets(entries, priorities, bought)
  {
    withMissing, targets := [], [];
    for i := 0 to |entries|
      invariant withMissing == WithMissing(entries[..i], priorities, bought)
      invariant targets == Targets(entries[..i], priorities, bought)
    {
      var e := entries[i];
      assert entries[..i + 1] == entries[..i] + [e];
      assert entries[..i + 1][..i] == entries[..i];
      FilterSnoc(entries[..i], e, HasMissingTest(priorities, bought));
      assert AllMissing(entries[..i + 1], priorities, bought) ==
             AllMissing(entries[..i], priorities, bought) + EntryMissing(e, priorities, bought);
      var missing := MissingRequiredSkills(PriorityConfigFor(e.key, priorities), bought);
      if |missing| == 0 {
        assert AllMissing(entries[..i], priorities, bought) + missing == AllMissing(entries[..i], priorities, bought);
        continue;
      }
      withMissing := withMissing + [e];
      targets := AppendNew(targets, AllMissing(entries[..i], priorities, bought), missing);
    }
    assert entries[..|entries|] == entries;
  }

  /** One more required skill is kept exactly when it is still missing. */
  lemma MissingStep(skills: seq<string>, i: nat, bought: SkillMemory.SkillMap)
    requires i < |skills|
    ensures Filter(skills[..i + 1], MissingTest(bought)) ==
            Filter(skills[..i], MissingTest(bought)) + (if StillMissing(bought, skills[i]) then [skills[i]] else [])
  {
    var test := MissingTest(bought);
    assert test(skills[i]) == StillMissing(bought, skills[i]);
    FilterSnoc(skills[..i], skills[i], test);
    assert skills[..i + 1] == skills[..i] + [skills[i]];
  }

  /** One pass of that loop: blank canonical names are skipped, bought ones dropped. */
  method KeepIfMissing(missing: seq<string>, skill: string, bought: SkillMemory.SkillMap) returns (r: seq<string>)
    ensures r == missing + (if StillMissing(bought, skill) then [skill] else [])
  {
    r := missing;
    var canon := CanonSkill(skill);
    if canon == "" {
      return;
    }
    if !SkillMemory.Has(bought, canon, None) {
      r := missing + [skill];
    }
  }

  /** `_missing_required_skills_for_priority` as the source runs it. */
  method MissingRequiredSkills(cfg: Option<Json>, bought: SkillMemory.SkillMap) returns (missing: seq<string>)
    ensures missing == MissingFor(cfg, bought)
  {
    var skills := RequiredSkills(cfg);
    missing := [];
    for i := 0 to |skills|
      invariant missing == Filter(skills[..i], MissingTest(bought))
    {
      MissingStep(skills, i, bought);
      missing := KeepIfMissing(missing, skills[i], bought);
    }
    assert skills[..|skills|] == skills;
  }

  /** The agent's fields these helpers read and update. */
  class ScenarioAgent {
    const lobby: Lobby.LobbyFlow
    const memory: SkillMemory.SkillMemoryManager
    var releasePending: bool
    var releaseKey: Option<string>
    var releaseCooldown: int
    var pendingHintRecheck: bool
    var pendingHintSupports: seq<Entry>

    constructor (lobby: Lobby.LobbyFlow, memory: SkillMemory.SkillMemoryManager)
      ensures this.lobby == lobby && this.memory == memory
      ensures !releasePending && releaseKey.None? && releaseCooldown == 0
      ensures !pendingHintRecheck && pendingHintSupports == []
    {
      this.lobby := lobby;
      this.memory := memory;
      releasePending := false;
      releaseKey := None;
      releaseCooldown := 0;
      pendingHintRecheck := false;
      pendingHintSupports := [];
    }

    function Release(): ReleaseState
      reads this, lobby
    {
      ReleaseState(releasePending, releaseKey, releaseCooldown, lobby.skipRaceOnce)
    }

    function Today(): Option<string>
      reads this, lobby
    {
      TodayDateKey(lobby.dateInfo)
    }

    /** `_schedule_planned_skip_release`. */
    method ScheduleSkipRelease()
      modifies this
      ensures Release() == Schedule(old(Release()), old(Today()))
      ensures pendingHintRecheck == old(pendingHintRecheck) && pendingHintSupports == old(pendingHintSupports)
    {
      releasePending := true;
      releaseKey := TodayDateKey(lobby.dateInfo);
      releaseCooldown := if releaseCooldown >= 2 then releaseCooldown else 2;
    }

    /** `_clear_planned_skip_release`. */
    method ClearSkipRelease()
      modifies this
      ensures Release() == Clear(old(Release()))
      ensures pendingHintRecheck == old(pendingHintRecheck) && pendingHintSupports == old(pendingHintSupports)
    {
      releasePending := false;
      releaseKey := None;
      releaseCooldown := 0;
    }

    /** `_tick_planned_skip_release`: only the guard of the lobby may change. */
    method TickSkipRelease()
      modifies this, lobby
      ensures Release() == Tick(old(Release()), old(Today()))
      ensures pendingHintRecheck == old(pendingHintRecheck) && pendingHintSupports == old(pendingHintSupports)
      ensures lobby.dateInfo == old(lobby.dateInfo) && lobby.skipGuardKey == old(lobby.skipGuardKey)
      ensures lobby.racedKeysRecent == old(lobby.racedKeysRecent) && lobby.stats == old(lobby.stats)
      ensures unchanged(lobby`artificial, lobby`tracks, lobby`refreshCounter, lobby`dateStableCount)
      ensures unchanged(lobby`dateArtificial, lobby`lastTurnAtDateUpdate, lobby`lastDateKey)
    {
      if !releasePending {
        return;
      }
      if !lobby.skipRaceOnce {
        ClearSkipRelease();
        return;
      }
      if releaseCooldown > 0 {
        releaseCooldown := releaseCooldown - 1;
        return;
      }
      var currentKey := TodayDateKey(lobby.dateInfo);
      if Present(releaseKey) && Present(currentKey) && currentKey != releaseKey {
        lobby.skipRaceOnce := false;
        ClearSkipRelease();
        return;
      }
      lobby.skipRaceOnce := false;
      ClearSkipRelease();
    }

    /**
     * `_consume_pending_hint_recheck` without the settings update. `screenOpened`
     * is whether the skills screen opened; `bought(targets)` is whether the
     * skills flow reported a purchase for those targets.
     */
    method ConsumePendingHintRecheck(priorities: map<SupportKey, Json>, screenOpened: bool, bought: seq<string> -> bool)
      returns (ok: bool)
      modifies this
      ensures !old(pendingHintRecheck) ==> !ok && pendingHintRecheck == old(pendingHintRecheck) &&
                                            pendingHintSupports == old(pendingHintSupports)
      ensures old(pendingHintRecheck) ==>
                var w := WithMissing(old(pendingHintSupports), priorities, memory.bought);
                (ok <==> w != [] && screenOpened && bought(Targets(old(pendingHintSupports), priorities, memory.bought))) &&
                (w != [] && !screenOpened ==> pendingHintRecheck && pendingHintSupports == w) &&
                (w == [] || screenOpened ==> !pendingHintRecheck && pendingHintSupports == [])
      ensures Release() == old(Release())
    {
      if !pendingHintRecheck {
        return false;
      }
      var entries := pendingHintSupports;
      pendingHintRecheck := false;
      pendingHintSupports := [];
      var withMissing, targets := Gather(entries, priorities, memory.bought);
      if |withMissing| == 0 {
        return false;
      }
      if !screenOpened {
        pendingHintRecheck := true;
        pendingHintSupports := withMissing;
        return false;
      }
      ok := bought(targets);
    }
  }
}
