# umaplay core, modelled in Dafny

umaplay is a bot that plays the training mode of Umamusume Pretty Derby. It reads the screen with YOLO detections and OCR, then decides what to click. This project models the decision logic and bookkeeping of that bot, and of the scripts that build its event and skill datasets, and proves properties of the model. Screen capture, OCR, object detection, clicking and the network are outside the model. Where the code consults them, their results are inputs or function parameters.

One Dafny module per source concern:

- `EventPrefs`, `EventRewards`, `EventCatalog` (core/utils/event_processor.py): preference resolution through overrides, trainee aliases, wildcard patterns and defaults; reward priorities and the energy-overflow guard; catalogue records and `retrieve_best`.
- `Events` (core/actions/events.py): the event screen. It chooses an option, validates it against visible choices and the energy cap, confirms chain steps and falls back to the top option.
- `ScrapeEvents`, `ScrapeSkills`, `UpdateGameData` (datasets/scrape_events.py, datasets/scrape_skills.py, scripts/update_game_data.py): the dataset transforms. These are range parsing, worst-case option scoring, the effect-list parser, trainee overrides, keyed merges with legacy migration, export order, rarity mapping and skill dedupe.
- `Lobby`, `StyleSchedule`, `SkillMemory`, `AgentScenario` (core/actions/lobby.py, core/utils/style_schedule.py, core/utils/skill_memory.py, core/agent_scenario.py): the agent's state.
  - `Lobby` covers the stat-read acceptance filter and the half-step date advance.
  - `StyleSchedule` covers the running-style schedule and its last-applied style.
  - `SkillMemory` covers the per-skill, per-grade counters.
  - `AgentScenario` covers the planned-race skip-release cooldown, missing required skills and the deferred hint re-check.
- `TrainingCheck`, `Screen`, `Fallback` (core/actions/ura/training_check.py, core/perception/analyzers/screen.py, core/actions/unity_cup/fallback_utils.py): support-value scoring with the risk gate, screen classification and the adaptive Unity Cup fallbacks.
- `OcrText`, `Skills`, `SkillNames`, `Race`, `Waiter`, `Nav` (core/utils/text.py, core/actions/skills.py, core/actions/race.py, core/utils/waiter.py, core/utils/nav.py):
  - OCR text repair and fuzzy matching;
  - the skills screen's title handling and purchase quotas;
  - race-card choice and the running-style button;
  - the waiter's click cascade;
  - detection helpers.
- `Settings` (core/settings.py): scenario names, clamps, the active preset, support priorities and the Unity Cup advanced block.
- Shared modules:
  - `Wrappers` (Option);
  - `Strings` (the `str` operations used: strip, ASCII case mapping, split, join, digit conversion);
  - `Sorting` (Python's stable keyed sort and filtering);
  - `JsonValues`, `Dicts` and `JsonEdit` (dicts as insertion-ordered pair lists, as `json.load` produces them);
  - `Detections`.

State that the source updates in place is modelled as classes with `modifies` clauses:
- `Settings.Settings` (the class attributes of core/settings.py);
- `EventPrefs.UserPrefs`;
- `Events.EventFlow` (its last-click memory);
- `Lobby.LobbyFlow`;
- `StyleSchedule.StyleScheduleManager`;
- `SkillMemory.SkillMemoryManager`;
- `AgentScenario.ScenarioAgent`;
- `Fallback.Agent`;
- `Skills.BuySession`.

Most loops in the source become methods with loop invariants. Their `ensures` tie the result to a specification function, and lemmas state what the source promises about that function. A few loops are modelled directly as functions: the loop of `_merge_nested` is the recursive `Settings.MergeNested` and `Settings.MergeFields`, and the opponent loop of core/settings.py:361-372 is a sequence comprehension.

Where the code and its documentation disagree, the model follows the code. The exceptions are the three defects under "## Findings": each is modelled as written, in its own member, and the surrounding flows use the corrected behaviour (see "## Left out").

The disagreements between code and documentation:
- core/actions/race.py:957 warns that an unknown style defaults to `pace`, but line 959 sets `front`. `Race.NormalizeStyle` returns `front`.
- In core/utils/event_processor.py:1745-1761, `retrieve_best` cuts the list to `top_k` after promoting a trainee match, not before.
- core/utils/style_schedule.py imports `date_cmp` from a file that is not part of this model. It is modelled as lexicographic order on (year code, month, half), the order of the sort key at core/utils/style_schedule.py:83.

## Model

| member | source | states |
|---|---|---|
| AgentScenario.Pad2 | core/agent_scenario.py:222 | the month is written with at least two digits, a leading zero below ten |
| AgentScenario.Pad2Value | core/agent_scenario.py:222 | the padded month reads back as the month |
| AgentScenario.TodayDateKey | core/agent_scenario.py:218-222 | a key exists exactly when there is a date with a month and a half of 1 or 2; it starts with `Y` |
| AgentScenario.SplitAtDash | core/agent_scenario.py:222 | the dash after the year splits a key in one way only |
| AgentScenario.DateKeyIdentifiesDay | core/agent_scenario.py:218-222 | two days share a key exactly when year, month and half agree |
| AgentScenario.Schedule | core/agent_scenario.py:224-232 | scheduling makes the release pending from today's key with a cooldown of at least two and never shortens a running one |
| AgentScenario.Clear | core/agent_scenario.py:234-242 | clearing leaves no pending release, no key and no cooldown, and the guard untouched |
| AgentScenario.Tick | core/agent_scenario.py:244-274 | a tick does nothing without a pending release; the guard survives only while it is set and the cooldown runs; a pending release continues only by counting down |
| AgentScenario.TickIgnoresDay | core/agent_scenario.py:256-274 | both release branches do the same, so the day key never changes a tick's outcome |
| AgentScenario.ReleaseValidKept | core/agent_scenario.py:224-274 | schedule, clear and tick keep the release well-formed: no key or cooldown without a pending release |
| AgentScenario.CountDown | core/agent_scenario.py:250-255 | while the guard stays set, n ticks take n off the cooldown |
| AgentScenario.ScheduledReleaseTiming | core/agent_scenario.py:224-274 | after scheduling, the guard survives as many ticks as the cooldown and is released and the release cleared on the next |
| AgentScenario.StringItems | core/agent_scenario.py:296 | the kept items are exactly the string items of the list |
| AgentScenario.RequiredSkills | core/agent_scenario.py:288-299 | no required skills without a dictionary of priority settings |
| AgentScenario.MissingForExact | core/agent_scenario.py:288-308 | a skill is reported exactly when it is required, its canonical name is not blank and it was never bought |
| AgentScenario.MissingShrinks | core/agent_scenario.py:300-308 | buying more never makes a required skill missing again |
| AgentScenario.RecordedNotMissing | core/agent_scenario.py:300-308 | once a skill's canonical name is recorded as bought, it is no longer reported missing |
| AgentScenario.StripOfCanon | core/agent_scenario.py:276-281 | the trailing `strip()` of a canonical name changes nothing |
| AgentScenario.CanonSkillNameAgrees | core/agent_scenario.py:276-281 | the scenario's canonical skill name agrees with the skills flow's, blank where that one has none |
| AgentScenario.PriorityConfigFor | core/agent_scenario.py:283-286 | settings are found exactly for a present key that has priority settings |
| AgentScenario.TargetsExact | core/agent_scenario.py:350-366 | the targets are exactly the skills missing for some pending support, none twice, each still missing |
| AgentScenario.AppendNew | core/agent_scenario.py:364-366 | appending the skills not yet targeted keeps the targets the de-duplicated concatenation |
| AgentScenario.Gather | core/agent_scenario.py:350-366 | the loop yields the supports still lacking skills and the de-duplicated missing skills in first-mention order |
| AgentScenario.MissingRequiredSkills | core/agent_scenario.py:288-308 | the loop returns exactly the required skills still missing, in order |
| AgentScenario.ScenarioAgent.constructor | core/agent_scenario.py:123-128 | a new agent has no pending release and no pending re-check |
| AgentScenario.ScenarioAgent.ScheduleSkipRelease | core/agent_scenario.py:224-232 | the new release state is Schedule of the old one and today's key; the re-check state is unchanged |
| AgentScenario.ScenarioAgent.ClearSkipRelease | core/agent_scenario.py:234-242 | the new release state is Clear of the old one |
| AgentScenario.ScenarioAgent.TickSkipRelease | core/agent_scenario.py:244-274 | the new release state and lobby guard are Tick of the old ones; every other lobby field is unchanged |
| AgentScenario.ScenarioAgent.ConsumePendingHintRecheck | core/agent_scenario.py:338-425 | without a pending re-check it returns False and changes nothing; otherwise it reports success only when some support lacks a skill, the screen opened and the purchase succeeded, and keeps exactly the lacking supports pending when the screen did not open |
| Lobby.Push | core/actions/lobby.py:242-297 | the bounded history gains the read at its end and never holds more than five |
| Lobby.ReadOutOfRange | core/actions/lobby.py:288-295 | a read outside [0, 1200] changes nothing, not even the history |
| Lobby.ReadKeepsHistory | core/actions/lobby.py:296-297 | every valid read enters the history, whatever is decided about it |
| Lobby.ReadFirst | core/actions/lobby.py:298-310 | the first valid read of an unknown stat is taken as is and resets the filter |
| Lobby.ReadSmallMove | core/actions/lobby.py:312-410 | drops of at most 60 and rises of at most 150 are taken at once |
| Lobby.ReadBigRise | core/actions/lobby.py:411-460 | a rise above 150 is taken exactly in warm-up, over an imputed value, or when it repeats the pending candidate, and then opens the suspect window |
| Lobby.BigRiseNeedsTwoReads | core/actions/lobby.py:434-455 | outside warm-up a large rise read once is held, and taken when read again |
| Lobby.ReadBigDrop | core/actions/lobby.py:329-393 | a drop above 60 is taken exactly over an imputed value, as a correction near the pre-jump value, or when it persists and the median supports it |
| Lobby.ReadKnown | core/actions/lobby.py:280-460 | a stat becomes unknown only if it was unknown |
| Lobby.ReadKeyAt | core/actions/lobby.py:280-460 | one loop step changes only its own key |
| Lobby.SameSlotSameRead | core/actions/lobby.py:280-460 | a key's decision depends only on its own slot |
| Lobby.ReadAllAt | core/actions/lobby.py:280-460 | the reading loop gives each key exactly its own decision and leaves other keys alone |
| Lobby.Missing | core/actions/lobby.py:463 | exactly the keys whose value is unknown |
| Lobby.Known | core/actions/lobby.py:464 | known and missing values together account for every key |
| Lobby.RoundHalfEven | core/actions/lobby.py:466 | the quotient is within half of the exact average, ties going to the even integer |
| Lobby.ClampStat | core/actions/lobby.py:467 | the clamp lies in [0, 1200] and changes nothing inside it |
| Lobby.FillAt | core/actions/lobby.py:468-470 | each listed key gets the average and is marked imputed; others are untouched |
| Lobby.ImputeFills | core/actions/lobby.py:462-471 | when some stat is known, no stat is unknown afterwards; imputed stats hold the average and are marked; known ones are kept |
| Lobby.MissingProper | core/actions/lobby.py:463-465 | with a known stat, fewer keys are missing than there are keys |
| Lobby.MissingAtMost | core/actions/lobby.py:463 | no more keys are missing than there are keys |
| Lobby.AgeKeepsValues | core/actions/lobby.py:473-482 | the stability loop changes no value and no imputed mark |
| Lobby.KeysDistinct | core/actions/lobby.py:232 | the five stat keys are distinct |
| Lobby.RefreshNoUnknown | core/actions/lobby.py:275-485 | after a refresh with some stat known, no stat is unknown |
| Lobby.RefreshValue | core/actions/lobby.py:275-485 | a refresh gives each stat the value its own read decided, unless that read left it unknown |
| Lobby.HalfStepCases | core/actions/lobby.py:541-562 | Early goes to Late in the same month, Late goes to the next month, December of the first two years to January of the next, the third year's to the final season; both advances, this one and the no-change one at lines 737-777, agree |
| Lobby.HalfStepAdvancesOne | core/actions/lobby.py:541-562 | every advance from a regular date moves exactly one half forward |
| Lobby.UnknownHalf | core/actions/lobby.py:541-562 | an unknown half counts as Late in the turn-driven advance but blocks the no-change advance, whose guard at lines 732-736 wants a half of 1 or 2 |
| Lobby.PrecheckNeedsEnergy | core/actions/lobby.py:902-916 | the precheck is allowed only when enabled and energy is known and above the rest minimum |
| Lobby.LobbyFlow.constructor | core/actions/lobby.py:81-130 | a new lobby has no stats, no artificial or tracked reads, a zero refresh counter, no date, no stable-date count, no artificial date, no last date update or key, no raced keys, no skip and no skip guard |
| Lobby.LobbyFlow.ReadStats | core/actions/lobby.py:280-460 | the reading loop computes ReadAll |
| Lobby.LobbyFlow.ImputeFor | core/actions/lobby.py:462-471 | the fill loop over the missing stats computes ImputeOver |
| Lobby.LobbyFlow.ImputeStats | core/actions/lobby.py:462-471 | the imputation step computes Impute |
| Lobby.LobbyFlow.AgeStats | core/actions/lobby.py:473-482 | the stability loop computes Age |
| Lobby.LobbyFlow.RefreshStats | core/actions/lobby.py:275-485 | the refresh branch computes Refresh |
| Lobby.LobbyFlow.UpdateStats | core/actions/lobby.py:211-497 | a gated call refreshes the stats, any other leaves them; the counter always advances and the date state is untouched |
| Lobby.LobbyFlow.AdvanceByTurns | core/actions/lobby.py:528-581 | when the turns dropped since the last date update, the date moves one half and becomes artificial, clearing raced keys on a new key; otherwise nothing changes |
| Lobby.LobbyFlow.MarkRacedToday | core/actions/lobby.py:886-892 | an empty key is ignored; otherwise it is remembered and arms the skip guard with that key |
| StyleSchedule.EntryLePreorder | core/utils/style_schedule.py:83 | the date order of entries is a total preorder, so the sort is well defined |
| StyleSchedule.FromDict | core/utils/style_schedule.py:32-40 | a parsed entry holds the integer values of yearCode, month and half, each defaulting to 1 |
| StyleSchedule.KeepSomeMembers | core/utils/style_schedule.py:69-80 | the kept values are exactly those some item yields |
| StyleSchedule.ScheduleEntriesMembers | core/utils/style_schedule.py:69-80 | an entry is kept exactly when some item parses to it with a valid style |
| StyleSchedule.AcceptedIff | core/utils/style_schedule.py:71-78 | an item is accepted exactly when it parses and names one of the four styles |
| StyleSchedule.SortedScheduleProps | core/utils/style_schedule.py:65-83 | the constructor's schedule is in date order, a permutation of the kept entries, and holds only valid styles |
| StyleSchedule.LastDue | core/utils/style_schedule.py:97 | the index found is due on the date and no later entry is; none when no entry is due |
| StyleSchedule.ActiveIsLatestDue | core/utils/style_schedule.py:106-120 | on a sorted schedule the loop yields the latest due entry's style, else the debut style |
| StyleSchedule.LastDueUnique | core/utils/style_schedule.py:97 | the latest due index is the one due index with nothing due after it |
| StyleSchedule.Decide | core/utils/style_schedule.py:136-145 | apply only a non-empty style different from the last applied, and then that style; otherwise no style |
| StyleSchedule.DecideAfterMarkAndReset | core/utils/style_schedule.py:136-171 | a style marked applied is not applied again; after a reset it is |
| StyleSchedule.DecideNothing | core/utils/style_schedule.py:136-145 | with no style configured nothing is applied |
| StyleSchedule.StyleScheduleManager.constructor | core/utils/style_schedule.py:53-86 | an invalid debut style becomes none; the schedule is parsed, filtered and sorted; nothing was applied yet |
| StyleSchedule.StyleScheduleManager.GetStyleForDate | core/utils/style_schedule.py:93-120 | the latest entry due on the date, else the debut style; always a valid style |
| StyleSchedule.StyleScheduleManager.ShouldApplyStyle | core/utils/style_schedule.py:122-145 | the decision is Decide of the active style and the last applied one |
| StyleSchedule.StyleScheduleManager.MarkApplied | core/utils/style_schedule.py:151-162 | the last applied style becomes the given one; the schedule is unchanged |
| StyleSchedule.StyleScheduleManager.Reset | core/utils/style_schedule.py:164-171 | the last applied style is forgotten; the schedule is unchanged |
| StyleSchedule.StyleScheduleManager.HasSchedule | core/utils/style_schedule.py:173-175 | true exactly when the schedule is not empty |
| SkillMemory.GradeKey | core/utils/skill_memory.py:314-319 | a missing or blank grade is the any-grade key, any other grade is trimmed; keys are never blank |
| SkillMemory.GradeKeyIdempotent | core/utils/skill_memory.py:314-319 | a grade key is its own grade key |
| SkillMemory.RecordBlank | core/utils/skill_memory.py:247-258 | a blank skill name records nothing |
| SkillMemory.RecordEntry | core/utils/skill_memory.py:247-293 | a new grade starts with the given count and date/turn as first and last; a known one counts one more, keeps its first date and turn and takes the latest |
| SkillMemory.RecordFrame | core/utils/skill_memory.py:247-293 | recording adds at most the one skill and changes only its one grade |
| SkillMemory.RecordThenHas | core/utils/skill_memory.py:247-312 | after recording, the skill is known under its grade and under no grade |
| SkillMemory.AnyGradeAnswersAll | core/utils/skill_memory.py:295-312 | a record under the any-grade key answers for every grade |
| SkillMemory.BoughtCount | core/utils/skill_memory.py:218-238 | a non-zero count only for a skill known in that grade |
| SkillMemory.RecordThenCount | core/utils/skill_memory.py:191-238 | buying again counts one more; buying first counts the given amount |
| SkillMemory.SetMeta | core/utils/skill_memory.py:81-113 | the stored date index never goes down and is at least the given one |
| SkillMemory.SetMetaIndexIsMax | core/utils/skill_memory.py:97-101 | the date index kept is the larger of the stored and the given one |
| SkillMemory.IsCompatible | core/utils/skill_memory.py:125-170 | a different preset, or a given date index before the stored one, is never compatible |
| SkillMemory.NormScenarioIdempotent | core/utils/skill_memory.py:102-104 | normalising a scenario name twice changes nothing more |
| SkillMemory.CompatibleAfterSet | core/utils/skill_memory.py:81-170 | right after storing a full snapshot, the same snapshot is compatible |
| SkillMemory.SkillMemoryManager.constructor | core/utils/skill_memory.py:16-25 | a new manager holds the empty memory and its own normalised scenario |
| SkillMemory.SkillMemoryManager.Record | core/utils/skill_memory.py:172-210 | one bucket becomes RecordIn of its old value; the other bucket and the metadata are unchanged |
| SkillMemory.SkillMemoryManager.SetRunMetadata | core/utils/skill_memory.py:81-113 | the metadata becomes SetMeta of the old; both buckets are unchanged |
| SkillMemory.SkillMemoryManager.Reset | core/utils/skill_memory.py:66-79 | the memory is emptied |
| EventPrefs.GeneralizeTraineeKey | core/utils/event_processor.py:840-870 | a generalised key exists exactly for keys naming a specific trainee with no attribute or rarity and at least one event segment |
| EventPrefs.GeneralKeyFields | core/utils/event_processor.py:859-868 | the general key splits back into the general trainee's fields and the event segments, with the original step suffix |
| EventPrefs.GeneralKeyPrefix | core/utils/event_processor.py:859-865 | the general key starts with the general trainee's fields |
| EventPrefs.GeneralizeShape | core/utils/event_processor.py:840-870 | the generalised key keeps the original event segments and step suffix after trainee/general/None/None |
| EventPrefs.GeneralizeIdempotent | core/utils/event_processor.py:853-854 | a generalised key cannot be generalised again |
| EventPrefs.AliasCandidates | core/utils/event_processor.py:894-899 | two or three alias keys are tried, the generalised key first |
| EventPrefs.Picks | core/utils/event_processor.py:875 | the option numbers of the overrides, in order |
| EventPrefs.StoreProps | core/utils/event_processor.py:881-892 | a store keeps the alias table well formed, only appends with the override's pick, and adds a candidate unless it is empty, an override or already aliased |
| EventPrefs.StoreAllProps | core/utils/event_processor.py:894-899 | storing the candidates keeps the table well formed and afterwards every candidate is empty, an override or aliased |
| EventPrefs.AliasesGrow | core/utils/event_processor.py:873-900 | later overrides never replace an earlier alias |
| EventPrefs.AliasesProps | core/utils/event_processor.py:873-900 | the alias table has unique non-empty keys, none an override; every alias carries some override's pick; every candidate of every trainee-specific override is covered |
| EventPrefs.AliasPicksAtLeast | core/utils/event_processor.py:873-900 | aliases inherit any lower bound the override picks have |
| EventPrefs.BuildAliasOverrides | core/utils/event_processor.py:873-900 | the override loop computes the alias table |
| EventPrefs.NoOverridesNoAliases | core/utils/event_processor.py:873-900 | with no overrides there are no aliases |
| EventPrefs.FirstKeyWhere | core/utils/event_processor.py:908 | the first override whose key satisfies the test, or past the end |
| EventPrefs.SpecificTraineePick | core/utils/event_processor.py:903-944 | none exactly when no override names a specific trainee's version of the event at the record's step; otherwise the pick of the first such override |
| EventPrefs.GlobLiteral | core/utils/event_processor.py:1347-1350 | a pattern without wildcards matches exactly itself |
| EventPrefs.GlobStar | core/utils/event_processor.py:1347-1350 | the pattern * matches every key |
| EventPrefs.GlobPrefix | core/utils/event_processor.py:1347-1350 | prefix* matches exactly the keys starting with prefix |
| EventPrefs.FirstPattern | core/utils/event_processor.py:1346-1350 | the first pattern matching the step key or the plain key, or past the end |
| EventPrefs.FirstSome | core/utils/event_processor.py:1319-1357 | the first rung that applies, and none exactly when no rung applies |
| EventPrefs.ResolveIsFirstRung | core/utils/event_processor.py:1319-1357 | pick_for answers at the first rung of the fixed ladder that applies |
| EventPrefs.PickAtLeastOne | core/utils/event_processor.py:1319-1357 | with every configured pick at least 1, the pick is at least 1 |
| EventPrefs.AliasDecides | core/utils/event_processor.py:1334-1340 | a general-trainee record whose step key is an alias is decided by the alias table with an override's pick |
| EventPrefs.CoerceBool | core/utils/event_processor.py:194-205 | booleans are kept, numbers map to their truth value, yes-type words give true and no-type words give false |
| EventPrefs.CoerceBoolDefault | core/utils/event_processor.py:194-205 | the default decides exactly for values that are neither booleans, numbers nor yes/no words |
| EventPrefs.PrefSupportKey | core/utils/event_processor.py:213-218 | key fields have no edge spaces; attribute and rarity have no lower-case letters |
| EventPrefs.OverrideEntriesProps | core/utils/event_processor.py:1148-1158 | kept overrides have unique keys and picks of at least 1, and a key is kept exactly when some entry under it converts to such a pick |
| EventPrefs.DictPatterns | core/utils/event_processor.py:1165-1171 | dict-form patterns keep at most the entries given |
| EventPrefs.DictPatternsKept | core/utils/event_processor.py:1165-1171 | a pattern is kept exactly when some entry has that key as written and a pick converting to that integer; when every pick converts, the patterns are the entries in dict order, picks as converted |
| EventPrefs.ListPattern | core/utils/event_processor.py:1175-1184 | a list-form pattern is non-blank, stripped, and its pick is at least 1 |
| EventPrefs.ListPatterns | core/utils/event_processor.py:1174-1184 | list-form patterns are non-blank with picks of at least 1 |
| EventPrefs.ListPatternsKept | core/utils/event_processor.py:1174-1184 | an item is kept exactly when it is accepted; when every item is accepted, the patterns are the items in order |
| EventPrefs.DefaultsIn | core/utils/event_processor.py:1187-1192 | one default per event type, in the order support, trainee, scenario |
| EventPrefs.SupportPrioritiesValid | core/utils/event_processor.py:1221-1226 | every stored per-card reward priority is a normalised list |
| EventPrefs.EntityPrioritiesValid | core/utils/event_processor.py:1240-1268 | every stored scenario or trainee reward priority is a normalised list |
| EventPrefs.NoPresetDefaults | core/utils/event_processor.py:1127-1142 | without a preset every setting takes its built-in default |
| EventPrefs.ParseOverrides | core/utils/event_processor.py:1148-1158 | the override loop computes the kept overrides |
| EventPrefs.ParsePatterns | core/utils/event_processor.py:1163-1184 | the pattern loop computes the kept patterns in either form |
| EventPrefs.ParseSupports | core/utils/event_processor.py:1202-1226 | the supports loop computes the per-card flags and reward priorities |
| EventPrefs.SupportTablesUnique | core/utils/event_processor.py:1202-1226 | per-card tables hold one entry per card |
| EventPrefs.UserPrefs.FromSetup | core/utils/event_processor.py:1144-1284 | on an event setup `from_config` accepts, every field holds what the setup says, built-in defaults where it says nothing, and every stored reward priority is a normalised list |
| EventPrefs.UserPrefs.Load | core/utils/event_processor.py:1121-1284 | loading fails exactly on the configurations where `from_config` raises, and otherwise yields the preferences FromSetup builds from the active preset's event setup |
| EventPrefs.NonNumericDefaultRaises | core/utils/event_processor.py:1187-1191 | a per-type default such as "abc" makes `from_config` raise instead of falling back to 1 |
| EventPrefs.ListSetupRaises | core/utils/event_processor.py:1121-1135 | an `event_setup` that is a non-empty list makes `from_config` raise |
| EventPrefs.UserPrefs.RewardPriorityFor | core/utils/event_processor.py:1286-1302 | the record's own non-empty list when stored, otherwise the preset-wide list; always normalised |
| EventPrefs.UserPrefs.ShouldAvoidEnergy | core/utils/event_processor.py:1304-1317 | the record's own flag when stored, otherwise the preset-wide flag |
| EventPrefs.UserPrefs.PickFor | core/utils/event_processor.py:1319-1357 | the pick is the ladder's answer with the alias table derived from the overrides |
| EventPrefs.UserPrefs.EnsureAliases | core/utils/event_processor.py:1335-1336 | the alias table is built when empty and never replaced once built |
| EventPrefs.PickAfterExact | core/utils/event_processor.py:1334-1357 | the ladder once neither exact override applies |
| EventPrefs.ScanPatterns | core/utils/event_processor.py:1346-1350 | the pattern loop finds FirstPattern |
| EventPrefs.FirstPatternAt | core/utils/event_processor.py:1346-1350 | a hit with no earlier hit is the first pattern |
| EventRewards.EntryCategory | core/utils/event_processor.py:81-88 | a raw entry names a valid category or none |
| EventRewards.FirstSeenProps | core/utils/event_processor.py:88-90 | the first-seen list repeats nothing and keeps exactly the values present |
| EventRewards.EntryCategories | core/utils/event_processor.py:81-88 | one category per raw entry, each valid |
| EventRewards.RewardPriorityProps | core/utils/event_processor.py:76-93 | the normalised list is never empty, repeats nothing, holds only valid categories, and otherwise than the default holds exactly the categories the raw entries name |
| EventRewards.NormalizeRewardPriorityList | core/utils/event_processor.py:76-93 | the loop computes RewardPriority: non-empty, no repeats, valid categories |
| EventRewards.Visit | core/utils/event_processor.py:99-111 | the walk raises the running maximum to the peak leaf value anywhere under the node |
| EventRewards.MaxPositiveEnergy | core/utils/event_processor.py:96-114 | the largest positive energy gain recorded anywhere in the outcomes |
| EventRewards.EnergyPeakIsUpperBound | core/utils/event_processor.py:96-114 | the peak bounds every energy value in an object and everything nested below |
| EventRewards.PairCategory | core/utils/event_processor.py:123-144 | a pair contributes a valid category or none |
| EventRewards.ExtractRewardCategories | core/utils/event_processor.py:117-151 | only valid categories are reported |
| EventRewards.PairEnergyCategory | core/utils/event_processor.py:104-144 | a pair recording a positive energy gain is an energy reward |
| EventRewards.EnergyImpliesCategory | core/utils/event_processor.py:96-151 | outcomes with a positive energy gain are always categorised as an energy reward |
| EventRewards.EffectivePriority | core/utils/event_processor.py:162-164 | the priority keeps only valid categories and is never empty |
| EventRewards.FirstSafeWith | core/utils/event_processor.py:168-172 | the first safe option in order carrying the category, or past the end |
| EventRewards.FirstSafe | core/utils/event_processor.py:174-176 | the first safe option in order, or past the end |
| EventRewards.ByCategory | core/utils/event_processor.py:167-172 | the first category in priority order that some safe option carries decides |
| EventRewards.SelectCandidateByPriority | core/utils/event_processor.py:154-177 | nothing without safe options; a chosen option is safe and in the order, with its category carried by it |
| EventRewards.SelectCandidateByPriorityBest | core/utils/event_processor.py:154-177 | no safe option carries a higher-ranked category and no earlier safe option carries the chosen one; without a category none carries any |
| EventCatalog.ReplacePunctuation | core/utils/event_processor.py:234-250 | no replaced punctuation survives and no upper-case letter is introduced |
| EventCatalog.CollapseSpaces | core/utils/event_processor.py:252-253 | no double space survives; only spaces are dropped, so the other characters survive in order; the first and last characters are kept; a text without a double space is unchanged |
| EventCatalog.NormalizeText | core/utils/event_processor.py:229-254 | an empty text stays empty; the result has no double space, no upper-case ASCII letter and no replaced punctuation; apart from spaces it is the stripped, lower-cased, punctuation-replaced text in order |
| EventCatalog.ReplacePunctuationFixed | core/utils/event_processor.py:234-250 | text holding no key of the punctuation table passes through it unchanged |
| EventCatalog.NormalizeTextFixed | core/utils/event_processor.py:229-254 | a text already in normal form (no edge space, upper-case letter, table key or double space) is its own normal form |
| EventCatalog.NormalizeTextIdempotent | core/utils/event_processor.py:229-254 | normalising a normal form again changes nothing, whenever the normal form has no edge space |
| EventCatalog.HammingFacts | core/utils/event_processor.py:273 | equal hashes differ in no bit; two 64-bit hashes differ in at most 64 |
| EventCatalog.HammingSimilarity64 | core/utils/event_processor.py:267-274 | a missing hash gives 0; two 64-bit hashes give a value in [0, 1]; equal hashes give 1 |
| EventCatalog.FromJsonItem | core/utils/event_processor.py:709-756 | the step key is the key plus #s and the chain step (1 when missing); a missing rarity or attribute reads as None; the title is normalised |
| EventCatalog.KeyFieldsRoundTrip | core/utils/event_processor.py:728 | the key splits back into its five fields when none contains a slash |
| EventCatalog.BuildCatalog | core/utils/event_processor.py:816-825 | every record kept has more than one option |
| EventCatalog.BuildCatalogComplete | core/utils/event_processor.py:816-825 | every event with more than one option, of every parent, yields its record, and every record comes from such an event |
| EventCatalog.BuildCatalogAppend | core/utils/event_processor.py:816-825 | the catalogue of two parent lists is the first one's records followed by the second one's, so records keep parent order |
| EventCatalog.PortraitPhash | core/utils/event_processor.py:1610-1617 | an explicit hash wins, then the in-memory image |
| EventCatalog.TitleSimilarity | core/utils/event_processor.py:593-602 | an identical title scores exactly 1; with unit scorers the result lies in [0, 1] |
| EventCatalog.HintBonus | core/utils/event_processor.py:1572-1585 | the hint bonus lies in [0, 0.48] |
| EventCatalog.ScoreCandidate | core/utils/event_processor.py:1531-1592 | the score is 0.82 text + 0.11 image + hint bonus; a blank title scores no text; an identical title scores 1; the total stays within [0, 1.41] |
| EventCatalog.Narrow | core/utils/event_processor.py:1621-1648 | a pre-filter keeps the pool, or replaces it by its non-empty matching part |
| EventCatalog.NarrowShrinks | core/utils/event_processor.py:1621-1648 | a pre-filter never adds records and never empties a non-empty pool |
| EventCatalog.HintPoolProps | core/utils/event_processor.py:1619-1651 | the pre-filtered pool is part of the catalog and non-empty when the catalog is |
| EventCatalog.Take | core/utils/event_processor.py:1761 | the first top_k results, or all when there are fewer |
| EventCatalog.CutCandidates | core/utils/event_processor.py:619-633 | a non-empty scored list gives a non-empty cut, drawn from the scored records |
| EventCatalog.CutCandidatesTiers | core/utils/event_processor.py:619-633 | on titles sorted best first the cut is a prefix: the first ones reaching 0.9, at most 100, stopping short of 100 only where they run out; else exactly those reaching 0.45; else the best 100 |
| Sorting.FilterSortedPrefix | core/utils/event_processor.py:620 | on a sorted list, a threshold filter keeps a prefix, and the element after it fails the threshold |
| EventCatalog.RankedTitlesSorted | core/utils/event_processor.py:610-619 | the ranked titles are sorted by descending similarity and hold the positive-scoring pairs, each as often as in the pool |
| EventCatalog.RankedTitlesMembers | core/utils/event_processor.py:610-614 | each ranked title is a pool record with its title similarity, above zero |
| EventCatalog.RankedTitlesEmpty | core/utils/event_processor.py:610-617 | nothing is ranked exactly when no record's title scores above zero |
| EventCatalog.SelectCvCandidates | core/utils/event_processor.py:605-633 | the portrait candidates are non-empty for a non-empty pool and drawn from it; a blank title gives the whole pool |
| EventCatalog.SelectCvCandidatesTiers | core/utils/event_processor.py:605-633 | with a non-blank title: the whole pool when no title scores above zero, else the three tiers of the ranked titles |
| EventCatalog.RankBeforeIsTotalPreorder | core/utils/event_processor.py:1720 | the sort key orders results totally |
| EventCatalog.FirstIndex | core/utils/event_processor.py:1727-1749 | the first result satisfying the test, or past the end |
| EventCatalog.FirstIndexIs | core/utils/event_processor.py:1727-1741 | a search stopping at the first hit finds FirstIndex |
| EventCatalog.MoveToFront | core/utils/event_processor.py:1739-1758 | the chosen result moves to the front and the others keep their order |
| EventCatalog.Promote | core/utils/event_processor.py:1723-1759 | promotion is a permutation of the results |
| EventCatalog.ScoreAll | core/utils/event_processor.py:1709-1718 | one result per scored record |
| EventCatalog.RankedProps | core/utils/event_processor.py:1719-1721 | the ranked list is ordered best first and every entry reaches min_score |
| EventCatalog.PromoteProps | core/utils/event_processor.py:1723-1759 | the tail stays ordered; without promotion nothing moves; every entry still reaches min_score |
| EventCatalog.PromotedCutProps | core/utils/event_processor.py:1723-1761 | after promotion and cut: at most top_k results, all reaching min_score, the tail ordered |
| EventCatalog.RetrieveSpecProps | core/utils/event_processor.py:1595-1761 | at most top_k results, all reaching min_score, ordered after the possibly promoted head and fully ordered without promotion |
| EventCatalog.NarrowByHints | core/utils/event_processor.py:1619-1651 | the pre-filters compute HintPool |
| EventCatalog.FindFirst | core/utils/event_processor.py:1727-1741 | the search loop finds FirstIndex |
| EventCatalog.PromoteTrainee | core/utils/event_processor.py:1723-1759 | the promotion loops compute Promote |
| EventCatalog.RetrieveBest | core/utils/event_processor.py:1595-1761 | retrieve_best computes RetrieveSpec: at most top_k results, all reaching min_score |
| Events.Clip | core/actions/events.py:41-44 | a coordinate is clamped into [0, hi] and kept when already there |
| Events.ClampBox | core/actions/events.py:37-49 | the corners lie inside the image, the far corner never before the near one and one pixel further when there is room; corners already inside are kept |
| Events.SortTopToBottom | core/actions/events.py:58-59 | the sort keeps the same detections |
| Events.SortTopToBottomProps | core/actions/events.py:58-59 | the sorted detections are ordered by their top edge and are exactly the input ones |
| Events.CountChainSteps | core/actions/events.py:99-107 | no chain arrows gives none; a count lies between 1 and the number of arrows; without a frame every arrow counts |
| Events.ChainStepHint | core/actions/events.py:242-245 | no hint exactly when there is neither a counted arrow nor a card; a card without arrows gives 1 |
| Events.FirstMostConfident | core/actions/events.py:115-116 | the first detection of highest confidence |
| Events.PickEventCard | core/actions/events.py:110-116 | none exactly without an event card; otherwise an event card of the input that no other card beats in confidence |
| Events.Choices | core/actions/events.py:119-124 | exactly the input's event choices at or above the confidence |
| Events.Rotation | core/actions/events.py:499 | n entries, the s-th being ((pick - 1 + s) mod n) + 1 |
| Events.RotationAt | core/actions/events.py:499 | the s-th entry counted from the start offset, wrapping once |
| Events.RotationPermutation | core/actions/events.py:499 | the rotation lists every option 1..n exactly once and starts at the pick when the pick is an option |
| Events.PalOvercap | core/actions/events.py:506-514 | the overcap allowance is 0 or 10 |
| Events.SafeOptions | core/actions/events.py:516-527 | exactly the options 1..n whose energy gain is not positive or fits under the limit, ascending |
| Events.CategoriesUpTo | core/actions/events.py:516-529 | the reward categories of exactly the options 1..n |
| Events.FirstSafeOr | core/actions/events.py:555-565 | the first safe option of the order, or the pick when none is safe |
| Events.ChooseProps | core/actions/events.py:535-565 | a safe pick is kept; an unsafe one becomes a safe option when there is one; the result stays among the options |
| Events.BestTeam | core/actions/events.py:360-383 | the best score is never negative and the index is a visible choice |
| Events.BestTeamProps | core/actions/events.py:360-383 | the chosen choice matches with a positive score no match beats, and every earlier match scores less; with none, no match scores above 0 |
| Events.TeamScores | core/actions/events.py:364-383 | one score per visible choice |
| Events.TeamPick | core/actions/events.py:341-415 | the override happens exactly for the Unity Cup team event with team text, and then the pick is a visible position or the bottom one |
| Events.Validate | core/actions/events.py:417-483 | a record without options stops; otherwise, without the team override, a pick that survives is one of the options and visible |
| Events.Finish | core/actions/events.py:592-602 | never raises; a click is on the visible choice at the pick's position |
| Events.DecideClicksVisibleOption | core/actions/events.py:417-623 | a click is always on a visible choice at the pick's position and records the record's keys and option count |
| Events.AdjustForEnergyProps | core/actions/events.py:498-572 | the energy re-selection keeps a safe pick, makes an unsafe one safe when possible, and stays among the options |
| Events.EnergyStageProps | core/actions/events.py:485-572 | on the normal path with energy known and avoidance on, the stage applies that re-selection |
| Events.ConfirmationClicksFirst | core/actions/events.py:574-590 | same event as the last click, fewer visible choices than expected and a previous pick above 1 give option 1 |
| Events.NoOptionsFallsBack | core/actions/events.py:418-425 | a record without options always falls back to the top choice |
| Events.UnityTeamWithoutChoicesRaises | core/actions/events.py:592-602 | as written, the team event with team text and no visible choice (the fall-back at lines 401-404 sets the pick to 0) indexes an empty list |
| Events.UnityTeamWithoutChoicesFallsBack | core/actions/events.py:592-602 | with the corrected bounds check the same screen falls back to the top option |
| Events.FinishAgrees | core/actions/events.py:592-602 | wherever the as-written check does not raise, it agrees with the corrected one |
| Events.TeamSearch | core/actions/events.py:360-383 | the search loop computes BestTeam over the visible choices |
| Events.InspectOption | core/actions/events.py:517-529 | one option's safety and reward categories |
| Events.ScanStep | core/actions/events.py:516-529 | adding option k extends the safe list and category map by that option alone |
| Events.ScanOptions | core/actions/events.py:516-529 | the option loop computes SafeOptions and CategoriesUpTo |
| Events.FirstSafeCandidate | core/actions/events.py:555-565 | the loop computes FirstSafeOr |
| Events.EnergyAdjust | core/actions/events.py:498-572 | the energy stage computes AdjustForEnergy |
| Events.DecideScreen | core/actions/events.py:341-623 | the stage-by-stage decision computes Decide |
| Events.TypeHint | core/actions/events.py:275-279 | a hint is a word the lower-cased title contains; none when it holds neither word |
| Events.BuildQuery | core/actions/events.py:274-294 | no name, rarity or hash hints; a portrait exactly with a card; the chain hint as computed; a preferred trainee only for trainee events |
| Events.Candidates | core/actions/events.py:298-318 | the first search's results when any; otherwise one retry at hint 1 and score 0.6 only when the hint is set and not 1 |
| Events.FallbackDecision | core/actions/events.py:627-657 | option 1, no match, the top choice clicked exactly when there is one |
| Events.EventFlow.constructor | core/actions/events.py:202-223 | a new flow remembers no click |
| Events.EventFlow.ProcessEventScreen | core/actions/events.py:227-623 | the decision and the remembered click are those of the screen's outcome |
| Events.EventFlow.Retrieve | core/actions/events.py:298-318 | retrieval computes Candidates |
| Events.EventFlow.HandleMatch | core/actions/events.py:337-623 | after a match, the decision and remembered click follow the matched outcome |
| Events.EventFlow.Apply | core/actions/events.py:600-633 | a click is remembered; a fall-back forgets the last click |
| Events.EventFlow.FallbackClickTop | core/actions/events.py:627-657 | forgets the last click and returns the fall-back decision |
| Settings.PyGetOr | core/settings.py:275-276 | a missing key yields the default |
| Settings.OrEmpty | core/settings.py:275-276 | a truthy value is kept, any other becomes the empty dict |
| Settings.NormalizeScenario | core/settings.py:596-602 | the result is always a known scenario |
| Settings.NormalizeScenarioCases | core/settings.py:596-602 | known names are kept, "aoharu" becomes "unity_cup", anything else "ura" |
| Settings.NormalizeScenarioIdempotent | core/settings.py:596-602 | normalising twice changes nothing |
| Settings.ClampInt | core/settings.py:523-536 | the clamp, used here and at lines 371 and 559, lies in its bounds, keeps values inside them and maps values outside to the nearer bound |
| Settings.ClampReal | core/settings.py:517-519 | the clamp lies in its bounds, keeps values inside them and maps values outside to the nearer bound |
| Settings.Clamp | core/settings.py:793-798 | a value float() rejects gives the lower bound; any other is clamped into the bounds |
| JsonValues.CoerceFloat | core/utils/event_processor.py:65-73 | integers and floats convert to their value; None, lists and dicts do not convert |
| JsonValues.ToInt | core/utils/event_processor.py:1167-1171 | an integer converts to itself; None, lists and dicts do not convert |
| Settings.PresetSource | core/settings.py:637-651 | the scenario branch's presets when truthy, else the legacy top-level list |
| Settings.FirstWithId | core/settings.py:654 | the index of the first preset carrying the active id, or past the end when none does |
| Settings.GetActivePreset | core/settings.py:629-658 | no preset exactly when the list is empty; otherwise one of the listed presets |
| Settings.ActivePresetChoice | core/settings.py:654-656 | the first preset with the active id when it is non-empty, else the first preset |
| Settings.ScenarioBranchFirst | core/settings.py:640-651 | a scenario branch with presets shadows the legacy list |
| Settings.SkillTexts | core/settings.py:818-820 | the required-skill list keeps no empty text |
| Settings.CommaItems | core/settings.py:821-822 | the comma-separated required skills keep no empty piece |
| Settings.NormalizePriority | core/settings.py:810-833 | a missing or non-dict block gives the default; enabled and recheck are the block's truth values (defaults on and off); each score is the given one clamped to [0, 10], 0 when float() rejects it and the default when missing; required skills are never blank |
| Settings.DefaultIsNotCustom | core/settings.py:836-859 | a missing or empty priority block is never a customisation |
| Settings.PriorityIsCustomCases | core/settings.py:836-859 | a priority is custom exactly when it is disabled, a score is not within 1e-6 of its default, skills are required or recheck is on |
| Settings.AvoidFlag | core/settings.py:891-894 | an entry without a boolean flag avoids energy overflow |
| Settings.CardsOf | core/settings.py:876-903 | only entries naming a card give one, so there are never more cards than entries |
| Settings.AvoidMapProps | core/settings.py:905-907 | every card's key has an energy-overflow flag and no key appears twice |
| Settings.PriorityMapUnique | core/settings.py:905-906 | no key appears twice in the priority map |
| Settings.DeckProps | core/settings.py:862-910 | the deck is a slot-sorted permutation of the accepted cards, and both maps have unique keys covering every card |
| Settings.ExtractSupportPriorities | core/settings.py:862-910 | the loop computes the sorted deck, the priority map and the energy-overflow map |
| Settings.ScanSupportEntries | core/settings.py:876-907 | the loop over the support entries collects exactly the well-formed cards, in order, with the last priority and overflow flag stored per card key |
| Settings.AllowedStats | core/settings.py:338 | only allowed burst stats survive |
| Settings.BurstStats | core/settings.py:336-375 | the burst stats are never empty and only allowed ones |
| Settings.OpponentSelection | core/settings.py:361-372 | one choice per default slot, in slot order, each in 1..3 |
| Settings.MergeNested | core/settings.py:342-355 | the merged block has exactly the default's keys in the default's order |
| Settings.MergeFields | core/settings.py:346-354 | the first n merged entries carry the default's first n keys |
| Settings.NormalizeUnityCupAdvanced | core/settings.py:331-380 | burst stats non-empty and allowed; one opponent choice per slot, each in 1..3 |
| Settings.LastDot | core/settings.py:622 | the index of the last dot, or past the end when there is none |
| Settings.Suffix | core/settings.py:622 | a suffix is empty or starts with a dot |
| Settings.Stem | core/settings.py:624 | stem and suffix together give back the name |
| Settings.SkillMemoryPath | core/settings.py:619-626 | the scenario goes before the file's suffix, or into a per-scenario file inside a suffixless base |
| Settings.ModeAfter | core/settings.py:279-282 | the new mode is always a known mode |
| Settings.ModeAfterCases | core/settings.py:279-282 | the configured mode when known, else the previous one lower-cased |
| Settings.ScenarioAfter | core/settings.py:313-314 | the new scenario is always a known one |
| Settings.ScenarioAfterCases | core/settings.py:313-314 | the configured scenario, stripped, lower-cased and normalised |
| Settings.UndertrainAfter | core/settings.py:514-519 | the undertrain threshold lies in [1, 20] |
| Settings.TopStatsAfter | core/settings.py:521-523 | the top-stats focus lies in [1, 5] |
| Settings.SkillCheckIntervalAfter | core/settings.py:526-530 | the skill check interval lies in [1, 12] |
| Settings.SkillPtsDeltaAfter | core/settings.py:532-536 | the skill points delta lies in [0, 2000] |
| Settings.MinimumSkillPtsAfter | core/settings.py:435-447 | the minimum skill points are never negative |
| Settings.CustomKeysMeaning | core/settings.py:454-458 | a key is custom exactly when its stored priority is not the default |
| Settings.Settings.constructor | core/settings.py:74-236 | the built-in defaults (mode steam, scenario ura, undertrain 6.0, top stats 3, skill check interval 3, skill points delta 60, minimum skill points 700, empty deck, clock on and banner 2), which satisfy every bound |
| Settings.Settings.ApplyConfig | core/settings.py:264-536 | every clamped setting keeps its bounds; each is the function of the configuration and its previous value; customisation is flagged exactly when a custom key exists |
| Settings.Settings.ApplyGeneral | core/settings.py:279-318 | mode and scenario are set, and the four values clamped at lines 513-536; the preset values, the support deck and the navigation preferences are kept |
| Settings.Settings.ApplyPreset | core/settings.py:382-459 | the Unity Cup block, minimum skill points and support deck come from the preset; the general settings and navigation preferences are kept |
| Settings.Settings.LoadSupportDeck | core/settings.py:449-459 | the deck, both maps and the custom keys are set; the general settings, preset values and navigation preferences are kept |
| Settings.Settings.ApplyNavPreferences | core/settings.py:539-564 | the navigation preferences become those the `nav` block gives; every other setting is kept |
| Settings.NavPrefsFrom | core/settings.py:539-564 | a non-dict shop block gives clock on and the rest off; a missing team-trials block or banner gives banner 2; a banner that converts is clamped to 1..3, one that does not gives 2 |
| Settings.Settings.TeamTrialsBannerPref | core/settings.py:582-593 | the preferred banner, always in 1..3 |
| Settings.FirstDictWithId | core/settings.py:407-414 | the index of the first dict preset carrying the active id: no earlier dict preset carries it, and past the end means none does |
| Settings.ConfigPreset | core/settings.py:382-419 | the preset apply_config uses is always a dict, empty when none is found |
| Settings.ConfigPresetChoice | core/settings.py:382-419 | presets come from the scenario's own branch, then the ura branch, then the legacy list; the pick is the first dict with the active id when non-empty, else the first preset if it is a dict, else empty |
| TrainingCheck.DirectorScore | core/actions/ura/training_check.py:16-22 | the table: blue 0.25, green 0.15, orange 0.10, any other colour (yellow, max, unknown) 0; positive exactly for blue, green and orange (the fallback to yellow is at lines 192-194) |
| TrainingCheck.RequiredNames | core/actions/ura/training_check.py:67-112 | the list items, or the comma parts of the text, each made canonical, the empty ones dropped, in order |
| TrainingCheck.HintValueRules | core/actions/ura/training_check.py:97-123 | a disabled or fully gated hint is worth nothing; marking hints important triples their value |
| TrainingCheck.AllBoughtGates | core/actions/ura/training_check.py:104-118 | with every required skill bought the hint is switched off |
| TrainingCheck.StepScore | core/actions/ura/training_check.py:166-275 | each support adds its base score; a special cameo neither hints nor counts as rainbow |
| TrainingCheck.OrangeAddsNothing | core/actions/ura/training_check.py:258-273 | orange and yellow standard supports add nothing on their own |
| TrainingCheck.FoldTotals | core/actions/ura/training_check.py:166-275 | the per-support loop totals the base scores and counts the rainbow standard supports |
| TrainingCheck.MaxOf | core/actions/ura/training_check.py:285-295 | the maximum is one of the candidates and no candidate exceeds it |
| TrainingCheck.BestHintIsLargest | core/actions/ura/training_check.py:281-306 | the one hint added is the largest candidate of both buckets, or nothing when none is positive |
| TrainingCheck.RiskMult | core/actions/ura/training_check.py:327-339 | the risk multiplier lies between 1 and 2 |
| TrainingCheck.RiskLimit | core/actions/ura/training_check.py:341 | the risk limit never exceeds 100 |
| TrainingCheck.RiskLimitRelaxes | core/actions/ura/training_check.py:320-341 | the risk limit is at least the base limit, capped at 100 |
| TrainingCheck.TileValueDecomposes | core/actions/ura/training_check.py:153-317 | a tile's value is the sum of base scores, plus the largest hint, plus 0.5 once for two or more rainbow supports |
| TrainingCheck.TileRiskGate | core/actions/ura/training_check.py:341-364 | a tile is allowed exactly when its failure is within the limit, and greedy exactly when allowed and at least 2.5 |
| TrainingCheck.ScoreTile | core/actions/ura/training_check.py:148-365 | one tile's scoring loop computes TileValue |
| TrainingCheck.ComputeSupportValues | core/actions/ura/training_check.py:24-368 | one row per tile, in input order, each the tile's TileValue |
| Screen.CountConf | core/perception/analyzers/screen.py:9-16 | the count of matching detections never exceeds the number of detections |
| Screen.AnyConfIffCount | core/perception/analyzers/screen.py:9-23 | a class is present at a threshold exactly when its count there is positive |
| Screen.ClassifyUra | core/perception/analyzers/screen.py:30-159 | the URA classifier never answers with a Unity Cup screen |
| Screen.UraRules | core/perception/analyzers/screen.py:92-159 | Event exactly with two or more event choices; Training needs five buttons; summer lobby and lobby need their buttons; EventStale needs one choice; Unknown needs none |
| Screen.UraEventStale | core/perception/analyzers/screen.py:92-159 | EventStale exactly when there is one event choice and no earlier rule (inspiration, race day, training, summer lobby, lobby, final screen, claw machine) fires |
| Screen.ApplyRelaxedIff | core/perception/analyzers/screen.py:237-254 | the relaxed gate holds at the primary threshold, or at a set lower relaxed one with the support button present when required |
| Screen.UnityCupRules | core/perception/analyzers/screen.py:161-290 | Event exactly with two or more choices; a golden button gives KashimotoTeam beside a white button and Inspiration otherwise; a race day gives Raceday with Tazuna and the Unity Cup race day without |
| Screen.GoldenRelaxedExample | core/perception/analyzers/screen.py:264-285 | a lone golden button between the relaxed and primary thresholds is an inspiration screen |
| Screen.RaceDayRelaxedExample | core/perception/analyzers/screen.py:256-290 | a relaxed race-day badge beside a white button, without Tazuna, is the Unity Cup race day |
| Fallback.ThresholdPair | core/actions/unity_cup/fallback_utils.py:20-39 | the primary is at least its floor and the relaxed threshold lies in [0.15, primary) |
| Fallback.GoldenPair | core/actions/unity_cup/fallback_utils.py:20-28 | golden primary at least 0.2, relaxed at least 0.15 and below the primary |
| Fallback.RacePair | core/actions/unity_cup/fallback_utils.py:31-39 | race-day primary at least 0.25, relaxed at least 0.15 and below the primary |
| Fallback.Floored | core/actions/unity_cup/fallback_utils.py:58 | each threshold raised to 0.15, position by position |
| Fallback.FloorDistinct | core/actions/unity_cup/fallback_utils.py:55-63 | the loop keeps the first of equal floored thresholds, in order |
| Fallback.ThresholdsFor | core/actions/unity_cup/fallback_utils.py:42-63 | the thresholds are the floored primary, relaxed and relaxed − 0.1 by patience stage, without repeats |
| Fallback.ThresholdsShape | core/actions/unity_cup/fallback_utils.py:42-63 | the list starts with the floored primary, stays at or above 0.15, never repeats, and gains the relaxed thresholds exactly from their patience stage or when forced |
| Fallback.FirstHit | core/actions/unity_cup/fallback_utils.py:81-85 | a hit is found at a listed threshold with the detector's answer there; no hit means every threshold found nothing |
| Fallback.FirstHitIsFirst | core/actions/unity_cup/fallback_utils.py:81-85 | a hit at a threshold with nothing found at the earlier ones is the one returned |
| Fallback.FindAdaptiveDetection | core/actions/unity_cup/fallback_utils.py:66-85 | returns the first threshold, in order, at which the detector finds the class, with its detection |
| Fallback.Agent.MaybeClickGolden | core/actions/unity_cup/fallback_utils.py:108-138 | clicks exactly when a golden button is found at some threshold, and then resets patience and the claw turn |
| Fallback.Agent.MaybeHandleRaceCard | core/actions/unity_cup/fallback_utils.py:141-187 | handles exactly when a race-day card is found, then resets patience and leaves the claw turn |
| Fallback.Agent.HandleUnknownLowConfTargets | core/actions/unity_cup/fallback_utils.py:190-202 | the golden button first, then the race-day card; nothing changes when neither is found |
| OcrText.Translate | core/utils/text.py:17-48 | each character is replaced by its look-alike, nothing added or removed |
| OcrText.DropCombining | core/utils/text.py:12-13 | dropping combining marks never lengthens the text |
| OcrText.Blank | core/utils/text.py:52 | every character outside a-z and 0-9 becomes a space, the others are kept, length unchanged |
| OcrText.OcrWords | core/utils/text.py:52-53 | the collapsed text's words are non-empty runs of a-z and 0-9 |
| OcrText.NormalizeOcrShape | core/utils/text.py:8-54 | normalised text holds only a-z, 0-9 and single inner spaces, with no space at either end |
| OcrText.TokenizeOcr | core/utils/text.py:63-69 | every token is a non-empty run of a-z and 0-9 |
| OcrText.TokenizeJoin | core/utils/text.py:63-69 | the tokens joined by one space give the normalised text back; there are none exactly when it is empty |
| OcrText.MapTokens | core/utils/text.py:81-90 | a whole-word substitution replaces each token by its image and keeps the count |
| OcrText.MergeBarrier | core/utils/text.py:85-86 | merging `war`/`var` + `barrier(s)` into `varies` only shortens, produces only input tokens or `varies`, and does nothing without the head word |
| OcrText.DirtPasses | core/utils/text.py:81-82 | after the two dirt rules no token is `deer`, `deered` or `dirf` |
| OcrText.BarrierPass | core/utils/text.py:85-86 | the barrier merge brings back no dirt misread |
| OcrText.WarPass | core/utils/text.py:89 | after the `war` rule no token is `war` |
| OcrText.VarPass | core/utils/text.py:90 | after the `var` rule no token is a misread of `varies` |
| OcrText.RaceCardTokensClean | core/utils/text.py:72-93 | the six rules in order leave no known misread token |
| OcrText.TokensAreTokens | core/utils/text.py:63-69 | every token is a normalised word |
| OcrText.JoinTokens | core/utils/text.py:92 | tokens joined by one space are normalised text that splits back into them |
| OcrText.RaceCardClean | core/utils/text.py:72-93 | race-card text is normalised and none of its words is a known misread |
| OcrText.RaceCardKeepsClean | core/utils/text.py:72-93 | text with no misread token comes out as the plain normalisation |
| OcrText.RaceCardFixesDirt | core/utils/text.py:72-93 | without any war/var token, exactly the dirt misreads are rewritten |
| OcrText.FixConfusions | core/utils/text.py:96-125 | same length; a character changes exactly when it is a 0 or 6 between two letters, and becomes o/O or g/G |
| OcrText.LeftNeighbourKept | core/utils/text.py:116-124 | the loop reads an already-updated left neighbour only where it was not changed |
| OcrText.FixCommonOcrConfusions | core/utils/text.py:96-125 | the in-place pass over the character list yields FixConfusions |
| OcrText.FixIdempotent | core/utils/text.py:96-125 | repairing twice changes nothing more |
| OcrText.ScanTokens | core/utils/text.py:157-164 | a hit exactly when some token reaches the threshold, reporting the first such ratio; otherwise the best ratio seen |
| OcrText.FuzzyContainsCases | core/utils/text.py:128-169 | an empty needle never matches; a normalised substring matches with ratio 1; otherwise a match needs a token at the threshold |
| OcrText.FuzzyContainsRatio | core/utils/text.py:128-164 | the loop with `return_ratio` computes FuzzyContains |
| OcrText.FuzzyContainsAny | core/utils/text.py:128-169 | the loop without `return_ratio` finds a match exactly when FuzzyContains does |
| OcrText.FuzzyBestMatch | core/utils/text.py:172-182 | the result is the first target of highest ratio, none when no ratio is positive |
| SkillNames.DropGradeSymbols | core/actions/skills.py:304-306 | the result is the name with the marks ◎, ○ and × filtered out, the other characters kept in order; a name without marks is unchanged |
| SkillNames.CanonSkillNoGrade | core/actions/skills.py:304-307 | a canonical name carries no grade mark |
| SkillNames.CanonicalSkillName | core/actions/skills.py:301-308 | a result is non-blank and mark-free, and is the collapsed name whenever that is non-blank |
| SkillNames.GradeFromName | core/actions/skills.py:311-317 | the grade is a mark the name contains, ◎ before ○ before ×, and none exactly for a missing or mark-free name |
| SkillNames.CanonicalNameHasNoGrade | core/actions/skills.py:301-317 | the canonical name never yields a grade: the two split a name into its parts |
| Skills.Closest | core/actions/skills.py:236-248 | an unused position within one bucket, or -1 exactly when no unused position is near |
| Skills.ClosestNearest | core/actions/skills.py:236-248 | the chosen position is no farther than any other unused near one, and strictly nearer than every earlier one, so ties go to the first |
| Skills.ClosestKeepsExact | core/actions/skills.py:247-248 | after an exact hit, later positions cannot displace it, so the early break is safe |
| Skills.FindClosest | core/actions/skills.py:236-248 | the search loop with its early break computes Closest |
| Skills.AllFree | core/actions/skills.py:277 | `[False] * n` |
| Skills.Names | core/actions/skills.py:226-227 | the names of a signature, one per item in order |
| Skills.Pools | core/actions/skills.py:232-234 | a name has a pool exactly when it occurs in the signature |
| Skills.PoolsFromItems | core/actions/skills.py:232-234 | every pooled position belongs to an item of that name |
| Skills.BuildPools | core/actions/skills.py:232-234 | the `setdefault(...).append` loop computes Pools |
| Skills.Remove | core/actions/skills.py:251 | popping a match leaves one position fewer, all from the pool |
| Skills.MatchAllPartners | core/actions/skills.py:236-251 | when the greedy matching succeeds, every item has a same-name position within one bucket among the original pools |
| Skills.MatchSignatures | core/actions/skills.py:236-251 | the greedy loop over `a` computes MatchAll |
| Skills.GreedyCount | core/actions/skills.py:277-294 | no more titles are matched than were seen |
| Skills.CountTitleMatches | core/actions/skills.py:277-294 | the per-title loop computes GreedyCount from all-unused slots |
| Skills.MatchTitles | core/actions/skills.py:270-294 | the loop over titles yields the matched count and the seen total |
| Skills.OcrOverlap | core/actions/skills.py:253-296 | the OCR overlap step computes OcrSame |
| Skills.NearlySameView | core/actions/skills.py:208-298 | the method computes NearlySame |
| Skills.NearlySameMeans | core/actions/skills.py:208-251 | views judged the same have equal length and class counts, and the matching pairs every item of `a` with a distinct same-name item of `b` within one bucket, using each item of `b` exactly once |
| Skills.Partners | core/actions/skills.py:224-251 | the greedy matching gives each item a partner from its name's pool within one bucket |
| Skills.PartnersFit | core/actions/skills.py:224-251 | the partners drawn for a name never exceed that name's pool, counting repeats |
| Skills.NearlySameCases | core/actions/skills.py:224-255 | different length or class counts are never the same; an empty or missing OCR side leaves the decision to the layout |
| Skills.OcrSameNeedsTwo | core/actions/skills.py:296 | with titles on both sides, sameness needs at least two matched titles |
| Skills.SkillTitleRoi | core/actions/skills.py:336-356 | the band always has positive width and height and, on a real box, lies inside it |
| Skills.TitleRoiInside | core/actions/skills.py:345-356 | on a real box the right edge is the box edge minus a quarter of its width |
| Skills.DeleteChars | core/actions/skills.py:538-539 | deleting characters only shortens, leaves none of them, and changes nothing without them |
| Skills.NormTitle | core/actions/skills.py:523-540 | a normalised title holds only title characters and has no space at either end |
| Skills.DeletedAreTitleChars | core/actions/skills.py:538-540 | after deleting punctuation and replacing hyphens, only title characters remain |
| Skills.Boost | core/actions/skills.py:437 | the bonus is 0.05 exactly when some key term occurs in the title, else 0 |
| Skills.AnyContainsMeans | core/actions/skills.py:437 | `any(k in title ...)` holds exactly when some key occurs |
| Skills.NoHyphenatedKey | core/actions/skills.py:432-540 | a title without hyphens contains no hyphenated key |
| Skills.LeftHandedKeyIsDead | core/actions/skills.py:432-540 | as written, the "left-handed" key never matches a normalised title, so the keys act as the other two alone |
| Skills.PlainWordClean | core/actions/skills.py:535-539 | a punctuation-free word passes the collapse and delete steps unchanged |
| Skills.HyphenToSpace | core/actions/skills.py:540 | "left-handed" becomes "left handed" |
| Skills.LowerLeftHanded | core/actions/skills.py:530-531 | "Left-Handed" repaired, trimmed and lower-cased is "left-handed" |
| Skills.CleanLeftHanded | core/actions/skills.py:535-539 | "left-handed" passes the collapse and delete steps unchanged |
| Skills.NormLeftHanded | core/actions/skills.py:523-540 | "Left-Handed" normalises to "left handed" |
| Skills.OtherKeysAbsent | core/actions/skills.py:432 | neither other key occurs in "left handed" |
| Skills.LeftHandedExample | core/actions/skills.py:432-437 | on "Left-Handed" the corrected key earns the bonus and the key as written does not |
| Skills.WeightedBest | core/actions/skills.py:433-442 | the loop returns the first match of highest weighted score, none when none is positive |
| Skills.Quota | core/actions/skills.py:115-121 | a target is bought twice exactly when it carries ◎, once otherwise |
| Skills.DesiredCounts | core/actions/skills.py:115-121 | every target and nothing else has its quota |
| Skills.SquareGrade | core/actions/skills.py:461 | the grade used is always a grade mark |
| Skills.BuyKeepsQuota | core/actions/skills.py:474-495 | buying a name under its quota keeps every count within its quota |
| Skills.TitleSig | core/actions/skills.py:406-413 | an entry is recorded only with a non-empty normalised title, which it carries |
| Skills.TitleSignature | core/actions/skills.py:392-413 | the signature has at most one non-empty title per square |
| Skills.GrewTrans | core/actions/skills.py:495 | purchase counts that grow twice have grown |
| Skills.GrewAntisym | core/actions/skills.py:495 | counts that grow and come back did not change |
| Skills.GrewStrict | core/actions/skills.py:495 | once a count went up the counts stay changed |
| Skills.BuySession.constructor | core/actions/skills.py:111-124 | quotas from the targets, no purchase yet, patience 3, nothing clicked |
| Skills.BuySession.CommitBuy | core/actions/skills.py:494-501 | one more purchase of the title, still within its quota; the bought-skill memory records the canonical name when there is one; nothing else changes |
| Skills.BuySession.ConsiderSquare | core/actions/skills.py:461-511 | the sighting is recorded; a click happens exactly when the best match is under quota and not already bought at that grade, and adds one purchase |
| Skills.BuySession.ScanSquare | core/actions/skills.py:392-511 | an inactive square is skipped; an active one adds its title; the new purchase counts and skill memory are SquareStep of the old ones; quotas hold |
| Skills.BuySession.ScanActiveSquare | core/actions/skills.py:432-511 | an active square's best weighted match is considered; counts and memory move as SquareStep says |
| Skills.BuySession.ScanPass | core/actions/skills.py:370-517 | a pass clicks exactly when a count changed, keeps the quotas, returns the title signature, and leaves counts and memory as ScanAll of the squares says |
| Skills.SquareStepCounts | core/actions/skills.py:461-511 | a square raises by one the count of its best name exactly when it is bought and leaves every other count alone; an inactive square changes nothing |
| Skills.ScanAllGrows | core/actions/skills.py:370-517 | a pass never lowers a count |
| Skills.ScanAllChanges | core/actions/skills.py:370-517 | a count a pass changes belongs to the best name of one of its active squares |
| Skills.Counted | core/actions/skills.py:494-501 | a purchase adds one to its name's count and leaves the others |
| Skills.BuySession.EndPass | core/actions/skills.py:133-156 | an unchanged view with no click costs one patience, anything else restores 3; stop at 0 patience or when every quota is met |
| Skills.BuySession.Run | core/actions/skills.py:109-191 | quotas hold; a click leads to success when confirmed, else an exit failure; no click leads to a no-buy or exit-failed result by recovery, purchases unchanged; counts and memory are those of scanning some prefix of the passes |
| Skills.BuyNoTargets | core/actions/skills.py:105-107 | no targets give a clean no-buy result |
| Race.ConfDescPreorder | core/actions/race.py:243 | descending confidence is a total preorder, so the stable sort is well defined |
| Race.Intersection | core/actions/race.py:255-259 | overlapping boxes have a positive intersection area |
| Race.OverlapHasArea | core/actions/race.py:249-261 | a star that overlaps a kept star has positive area, so the ratio is defined |
| Race.KeepDistinct | core/actions/race.py:244-266 | the kept stars come from the input, are no more than it, and the first is always kept |
| Race.KeepDistinctSeparated | core/actions/race.py:246-266 | no kept star duplicates a star kept before it |
| Race.KeepDistinctCovers | core/actions/race.py:246-266 | a star is dropped only when it duplicates a kept star |
| Race.KeepDistinctSorted | core/actions/race.py:243-266 | keeping a sub-list of the confidence-ordered list keeps it ordered |
| Race.DedupStarsProps | core/actions/race.py:234-268 | zero or one star comes back unchanged; otherwise the most confident star comes first, the result is in descending confidence, drawn from the input, drops only duplicates of kept stars and keeps no duplicate |
| Race.RatioAboveHalf | core/actions/race.py:261 | for a positive area, the ratio exceeds one half exactly when the intersection exceeds half the area |
| Race.IsDuplicate | core/actions/race.py:251-263 | the inner loop finds a duplicate exactly when some kept star covers more than half of this one |
| Race.DeduplicateStars | core/actions/race.py:234-268 | the loops compute DedupStars |
| Race.Better | core/actions/race.py:639-652 | the running best is the old best or the new square, and at least as good as both: higher rank, or same rank and higher on screen |
| Race.ScanPageMeaning | core/actions/race.py:604-652 | a G1 pick is the first eligible G1 square; otherwise no square was a G1 hit, and the best beats or ties every competing square and the incoming best, and is one of them |
| Race.PickOnPage | core/actions/race.py:605-652 | the loop over a page's squares computes ScanPage |
| Race.NeedClick | core/actions/race.py:596-602 | no tap is needed exactly when nothing scrolled and the pick is the card first seen on top |
| Race.ScrolledAlwaysClicks | core/actions/race.py:439-448 | after scrolling a pick always needs a tap |
| Race.NormalizeStyle | core/actions/race.py:953-959 | the style is always one of the four; a known style after trimming and lower-casing is kept, anything else becomes "front" |
| Race.PlainLowerWord | core/actions/race.py:953 | a lower-case word is its own trimmed, lower-cased form |
| Race.StyleWordsPlain | core/actions/race.py:954 | the four style names are lower-case words |
| Race.NormalizeStyleIdempotent | core/actions/race.py:953-959 | normalising a style twice changes nothing more |
| Race.StyleIndex | core/actions/race.py:994 | the index names the style's position in the modal |
| Race.CancelIndex | core/actions/race.py:973-977 | the cancel button is the first white of greatest centre height |
| Race.OtherWhites | core/actions/race.py:980-987 | exactly the whites other than the cancel button, optionally only those more than 10 px above it |
| Race.LoneWhiteLeavesNone | core/actions/race.py:977-987 | a lone white button is the cancel button and leaves no style button |
| Race.TwoWhitesLeaveOne | core/actions/race.py:977-987 | with two or more whites there is always a style button |
| Race.BestLabel | core/actions/race.py:1012-1018 | the loop returns the first button of best label score, none when no score is positive |
| Race.LoneWhiteRaises | core/actions/race.py:997-1025 | as written, one white button leads to an index error instead of giving up |
| Race.ChooseStyle | core/actions/race.py:996-1025 | no button gives none; the choice is a button; four or more go by position; otherwise by label score at 0.45 or above, else the closest position; it agrees with the code whenever there is a button |
| Race.SelectStyleButton | core/actions/race.py:945-1025 | nothing unless exactly one change button and some white button; then ChooseStyle of the sorted style buttons and the normalised style |
| Waiter.NormEntries | core/utils/waiter.py:447 | the kept entries are non-blank, trimmed and lower-case, at most as many as given, and none exactly when every entry is blank |
| Waiter.LowerKeepsEdges | core/utils/waiter.py:447 | lower-casing a trimmed text leaves it trimmed |
| Waiter.NormSeq | core/utils/waiter.py:443-448 | none exactly for a missing list or one of blank entries; otherwise a non-empty list of trimmed lower-case entries |
| Waiter.NormEntriesFixed | core/utils/waiter.py:447 | entries already trimmed and lower-cased come back unchanged |
| Waiter.NormSeqIdempotent | core/utils/waiter.py:150-151 | normalising twice, as `click_when` and `_pick_by_text` do, changes nothing more (the second normalisation is at line 407) |
| Waiter.MatchesForbidden | core/utils/waiter.py:381-391 | the scan hits exactly when some forbidden phrase reaches the threshold |
| Waiter.IsForbidden | core/utils/waiter.py:363-391 | the method computes Forbidden: never without phrases, OCR or text read |
| Waiter.MaxRatio | core/utils/waiter.py:431 | the maximum is at least every ratio and equal to one of them |
| Waiter.CandidateScore | core/utils/waiter.py:412-433 | a blank or forbidden read scores 0; otherwise at least the best ratio, at least 0.95 on a direct word match, and one of those two |
| Waiter.TextPickSound | core/utils/waiter.py:411-437 | the best score bounds every candidate; a pick is a candidate that reaches the threshold with the best score and is the first to do so |
| Waiter.DirectMatchScores | core/utils/waiter.py:422-429 | a read containing a wanted text as a word scores at least 0.95 unless blank or forbidden |
| Waiter.HasDirectMatch | core/utils/waiter.py:423-425 | the nested loops find a hit exactly when some wanted text equals some word, ignoring case |
| Waiter.ConsiderCandidate | core/utils/waiter.py:413-433 | one candidate takes over the best pick exactly when its candidate score beats the best so far |
| Waiter.PickByText | core/utils/waiter.py:393-437 | no pick and 0 without texts or OCR; otherwise the pick and score of TextPick |
| Waiter.FirstAllowed | core/utils/waiter.py:180-185 | none exactly when all are forbidden; otherwise the first allowed candidate in order |
| Waiter.FirstAllowedLowest | core/utils/waiter.py:174-185 | over candidates ordered lowest first, every candidate lower than the pick is forbidden |
| Waiter.SameMembers | core/utils/waiter.py:174-178 | sorting keeps the same candidates |
| Waiter.BottomPickIsLowest | core/utils/waiter.py:172-189 | the bottom-most stage clicks an allowed candidate with every lower one forbidden, and none only when all are forbidden |
| Waiter.Cascade | core/utils/waiter.py:158-217 | a click is always on an allowed candidate of this snapshot; no candidates, no click |
| Waiter.BottomMost | core/utils/waiter.py:172-189 | the loop returns the first allowed candidate from the bottom up |
| Waiter.RunCascade | core/utils/waiter.py:158-217 | the three stages as run compute Cascade |
| Waiter.FirstClick | core/utils/waiter.py:154-228 | a click exactly when some poll's cascade finds one, and then the first such poll's pick |
| Waiter.ClickWhen | core/utils/waiter.py:106-228 | an empty class list raises; otherwise the result is the first poll that clicks, else a timeout |
| Waiter.TryClickOnce | core/utils/waiter.py:283-347 | a click exactly when classes are given and the cascade on the one snapshot finds a candidate |
| Nav.ByName | core/utils/nav.py:48-55 | every picked detection has the class and at least the confidence asked for |
| Nav.ByNameExact | core/utils/nav.py:48-55 | a detection is picked exactly when it is in the input and matches |
| Nav.Has | core/utils/nav.py:42-45 | true exactly when some detection has the class and the confidence |
| Nav.HasIffByName | core/utils/nav.py:42-55 | `has` holds exactly when `by_name` is not empty |
| Nav.RowsTopToBottomProps | core/utils/nav.py:58-63 | the rows are the matching detections, a permutation of `by_name`, ordered by top edge |
| Nav.DetectionsInRow | core/utils/nav.py:66-78 | the loop keeps exactly the matching detections whose centre lies in the row, in order |
| Nav.DetectionsInRowExact | core/utils/nav.py:66-78 | a detection is kept exactly when it is in the input, matches, and its centre lies in the row box, edges included |
| Nav.ShopItemOrderExact | core/utils/nav.py:192-201 | the items walked are exactly those whose preference is on, in clock, star piece, parfait order |
| Nav.ClickButtonLoop | core/utils/nav.py:91-124 | the count is at most max(0, max_clicks), every counted click succeeded, and a count below the cap means the next click failed |
| ScrapeEvents.RangeParts | datasets/scrape_events.py:83-84 | the parts of a value string after stripping and dropping the leading `+`: split on `/` when there is one, never empty |
| ScrapeEvents.ValuesFromMaybeRange | datasets/scrape_events.py:74-93 | one value per part of a ranged string, a single value for a number, [0.0] for anything else; never empty |
| ScrapeEvents.MinFromMaybeRange | datasets/scrape_events.py:95-98 | the worst case is one of the range's values and no greater than any of them |
| ScrapeEvents.DecimalOfInt | datasets/scrape_events.py:72-88 | the text of an integer matches the plain-number pattern and reads back as that integer |
| ScrapeEvents.IntTextShape | datasets/scrape_events.py:83-84 | integer text has no edge blanks, no leading `+` and no `/`, so it is one part of itself |
| ScrapeEvents.RangeOfTwo | datasets/scrape_events.py:74-93 | a two-valued range `a/b` yields exactly [a, b] in order |
| ScrapeEvents.ScoreEnergyTerm | datasets/scrape_events.py:210-228 | two outcomes differing only in energy differ in score by the energy weight times the difference of their worst-case energies; more energy scores higher |
| ScrapeEvents.SameOutsideEnergy | datasets/scrape_events.py:214-226 | outcomes agreeing on every key but energy agree on every other scored term |
| ScrapeEvents.WorstCase | datasets/scrape_events.py:237 | the worst case of an option is the score of one of its outcomes and no greater than any of them |
| ScrapeEvents.DefaultPreferenceProps | datasets/scrape_events.py:230-245 | the chosen option has the best worst case, the lowest number among equals, options without outcomes are skipped, and 1 is returned when none has outcomes |
| ScrapeEvents.ChooseDefaultPreference | datasets/scrape_events.py:230-245 | the loop keeping the best key and score returns the preference defined by the scan |
| ScrapeEvents.SupportDefaultChunk | datasets/scrape_events.py:198-205 | a chunk with fewer than three fields or an empty name yields nothing; otherwise the name is not empty |
| ScrapeEvents.SupportDefaultsOf | datasets/scrape_events.py:197-206 | the chunks build a mapping with each name once |
| ScrapeEvents.ParseSupportDefaults | datasets/scrape_events.py:191-206 | the result maps each lower-cased name once; an empty argument gives the empty mapping |
| ScrapeEvents.ChunkOfHyphenated | datasets/scrape_events.py:198-205 | a chunk whose name holds hyphens keeps the whole name; the last two fields are rarity and attribute |
| ScrapeEvents.SupportDefaultsHyphenatedName | datasets/scrape_events.py:191-206 | an argument of one such chunk maps the lower-cased hyphenated name to its rarity and attribute |
| ScrapeEvents.DigitsLabel | datasets/scrape_events.py:306 | the captured number of a numbered label is a non-empty digit string |
| ScrapeEvents.NumberLabel | datasets/scrape_events.py:306-307 | the `No.`-prefixed or bare number of a label is a non-empty digit string |
| ScrapeEvents.NormalizeLabel | datasets/scrape_events.py:298-308 | a label normalises to top, mid, bot or a bare number |
| ScrapeEvents.NormalizeDigits | datasets/scrape_events.py:298-308 | a digit label: 1, 2 and 3 become top, mid and bot, any other number stays as it is |
| ScrapeEvents.NormalizeNumberLabel | datasets/scrape_events.py:298-308 | the text of a natural number normalises to top, mid, bot for 1, 2, 3 and to itself otherwise |
| ScrapeEvents.PlainNumberText | datasets/scrape_events.py:109-121 | integer text, with or without `+`, converts to that integer; a ranged string is kept as its stripped text |
| ScrapeEvents.PlainNumberIdempotent | datasets/scrape_events.py:109-121 | converting a value twice is converting it once |
| ScrapeEvents.ConvertNumbersFields | datasets/scrape_events.py:128-130 | after the loop every numeric key present reads its old value converted, and every other key reads as before |
| ScrapeEvents.ConvertNumbersUnique | datasets/scrape_events.py:126-130 | the loop keeps one value per key |
| ScrapeEvents.AddUnique | datasets/scrape_events.py:135-138 | appending unseen parts keeps the earlier list as a prefix, keeps it duplicate-free, and holds exactly the old items and the parts |
| ScrapeEvents.FlattenHints | datasets/scrape_events.py:132-139 | the flattened hints have no duplicates and are exactly the non-blank `/`-parts of the hints |
| ScrapeEvents.ApplyStatus | datasets/scrape_events.py:141-154 | without a non-blank status string the effect is unchanged |
| ScrapeEvents.ApplyStatusFields | datasets/scrape_events.py:141-154 | key by key: the energy limit from the text; mood 1 or -1; `status` removed after a mood rewrite, or after an energy-limit rewrite when there is no `statuses`; every other key unchanged; one value per key kept |
| ScrapeEvents.NormalizeEffect | datasets/scrape_events.py:124-156 | the exported effect is a dict without any `None`, `""`, `[]` or `{}` value |
| ScrapeEvents.PreStatusFields | datasets/scrape_events.py:126-139 | before the status step, numeric keys read their converted values, a hint list reads its flattened distinct texts, and other keys read as before |
| ScrapeEvents.NormalizeEffectFields | datasets/scrape_events.py:124-156 | key by key, the export reads the converted or flattened value, rewritten by the input's status text, and nothing where that value is empty |
| JsonEdit.GetFiltered | datasets/scrape_events.py:156 | the dict comprehension keeps a key's value exactly when the value passes, and drops the key otherwise |
| ScrapeEvents.AppendHint | datasets/scrape_events.py:743-747 | the hint goes at the end of the existing hint list (a new list when there is none) and no other key changes |
| ScrapeEvents.AppendRollFields | datasets/scrape_events.py:749-755 | an empty roll changes nothing; otherwise the hint list ends with the roll's formatted entries in order, and no other key changes |
| ScrapeEvents.PushCurrent | datasets/scrape_events.py:698-703 | after a push the current effect is empty and holds no data, and the scan invariant holds |
| ScrapeEvents.StepItem | datasets/scrape_events.py:705-758 | one item of the effect list keeps the scan invariant |
| ScrapeEvents.ScanItems | datasets/scrape_events.py:705-758 | the scan of the effect list keeps the scan invariant |
| ScrapeEvents.ParseEffectsProps | datasets/scrape_events.py:682-771 | every event yields at least one outcome and at most one per divider plus one, each an exported dict with no empty value |
| ScrapeEvents.ParseEffectsFromEventDict | datasets/scrape_events.py:682-771 | the loop over the effect list returns the outcomes the scan defines |
| ScrapeEvents.OverrideEvent | datasets/scrape_events.py:624-649 | one shared event after the trainee's overrides is still a dict |
| ScrapeEvents.OverrideAll | datasets/scrape_events.py:621-651 | the overrides keep the number of events |
| ScrapeEvents.OverrideProps | datasets/scrape_events.py:621-651 | the overrides keep order and names, touch only Dance Lesson and New Year's Resolutions, and a rewritten event defaults to option 2 |
| ScrapeEvents.ApplyTraineeOverrides | datasets/scrape_events.py:621-651 | the loop returns the overridden list |
| ScrapeEvents.MergeSharedProps | datasets/scrape_events.py:653-667 | the merge keeps every card event first and in order and adds exactly the shared events whose name no card event has |
| ScrapeEvents.MergeSharedEvents | datasets/scrape_events.py:653-667 | the loop returns the merge |
| ScrapeSkills.GradeSymbolFromName | datasets/scrape_skills.py:66-73 | the symbol, when any, is a circle symbol the stripped name ends with; none exactly when it ends with neither |
| ScrapeSkills.GradeSymbolOfSuffixed | datasets/scrape_skills.py:68-73 | a name ending in a circle symbol, trailing blanks aside, reports that symbol |
| ScrapeSkills.RarityColourAgree | datasets/scrape_skills.py:51-107 | the HTML rarity of a JSON row's colour class is its JSON rarity, except inherited skills which share the normal colour |
| ScrapeSkills.RarityCodes | datasets/scrape_skills.py:102-107 | codes 1, 2, 3 give normal, gold and unique; a missing code gives inherited for ids from 900000 and normal below |
| ScrapeSkills.SkillOfRow | datasets/scrape_skills.py:92-122 | a row yields a record exactly when it is complete; the record has a name, its grade symbol, its icon file and URL and a known rarity |
| ScrapeSkills.JsonSkillsLength | datasets/scrape_skills.py:91-122 | at most one record per row |
| ScrapeSkills.JsonSkillsKeep | datasets/scrape_skills.py:91-122 | every complete row yields a record |
| ScrapeSkills.JsonSkillsFromRows | datasets/scrape_skills.py:91-122 | every record comes from a row |
| ScrapeSkills.FetchJsonSkills | datasets/scrape_skills.py:91-122 | the loop over the rows returns the records the rows define |
| ScrapeSkills.AbsoluteUrl | datasets/scrape_skills.py:135-140 | none exactly for a missing or empty path; an absolute URL is kept |
| ScrapeSkills.AbsoluteUrlJoin | datasets/scrape_skills.py:135-140 | a relative path is joined to the site with exactly one slash, whatever slashes it starts with |
| ScrapeSkills.AbsoluteUrlIdempotent | datasets/scrape_skills.py:135-140 | joining a joined URL again changes nothing |
| ScrapeSkills.FirstColorClass | datasets/scrape_skills.py:144-151 | the first class that is not a name or generated class, every earlier one skipped; none when all are skipped |
| ScrapeSkills.FindColorClass | datasets/scrape_skills.py:142-153 | returns the first colour class (or empty) and its rarity, which is normal, gold or unique |
| ScrapeSkills.LastWithKey | datasets/scrape_skills.py:248-252 | the last record with a key, or none when no record has it |
| ScrapeSkills.PutAllLookup | datasets/scrape_skills.py:248-258 | the dictionary keeps keys unique; a key reads the last record carrying it, else what it read before |
| ScrapeSkills.MergedLookup | datasets/scrape_skills.py:245-261 | a key reads the last JSON record with it, else the last HTML record |
| ScrapeSkills.MergeAndDedupeUnique | datasets/scrape_skills.py:245-263 | no two returned records share a key |
| ScrapeSkills.MergeAndDedupeLatest | datasets/scrape_skills.py:245-263 | each returned record is the last JSON record with its key, or the last HTML record when no JSON record has it |
| ScrapeSkills.MergeAndDedupeCovers | datasets/scrape_skills.py:245-263 | every key of either input is represented |
| ScrapeSkills.MergeAndDedupeLoop | datasets/scrape_skills.py:245-263 | the two loops over the dictionary return the merge |
| UpdateGameData.CreateEntryKey | scripts/update_game_data.py:599-617 | an entry with a Gametora id is keyed `gt_<id>`, any other by its legacy key; the key is lower-case |
| UpdateGameData.LegacyKeyIgnoresCase | scripts/update_game_data.py:620-625 | entries whose name, attribute and rarity differ only in letter case share a legacy key |
| JsonValues.IntTextReadsBack | scripts/update_game_data.py:606-617 | an integer id prints as text that reads back as that id, so distinct ids give distinct `gt_` keys |
| UpdateGameData.KeyIndex | scripts/update_game_data.py:644-647 | every key maps to an index of an entry with that key, and every entry's key is present |
| UpdateGameData.LegacyIndex | scripts/update_game_data.py:649-654 | every legacy key maps to an index of an id-less entry with that legacy key, and every id-less entry's legacy key is present |
| UpdateGameData.MergeStep | scripts/update_game_data.py:663-695 | one new entry keeps every recorded index inside the merged list and leaves the legacy lookup alone |
| UpdateGameData.MergeAll | scripts/update_game_data.py:663-695 | the loop over the new entries keeps every recorded index inside the merged list |
| UpdateGameData.MergeEventsProps | scripts/update_game_data.py:628-697 | every new entry counts once as added or updated; the list grows by the added ones; an existing entry no new entry matches keeps its place and value; every other place holds a new entry |
| UpdateGameData.LegacyReplacedOnce | scripts/update_game_data.py:677-689 | a legacy entry already replaced is not replaced again: a second new entry with its legacy key is appended |
| UpdateGameData.LegacyMigration | scripts/update_game_data.py:677-684 | a migration overwrites the id-less entry with the same legacy key and records its index |
| UpdateGameData.BuildKeyLookup | scripts/update_game_data.py:644-647 | the first loop builds the key index |
| UpdateGameData.BuildLegacyLookup | scripts/update_game_data.py:649-654 | the second loop builds the legacy index |
| UpdateGameData.MergeNewEntries | scripts/update_game_data.py:659-695 | the third loop returns the merged list and counts the merge defines |
| UpdateGameData.MergeEventsLoop | scripts/update_game_data.py:628-697 | the three loops together return what `merge_events` defines |
| UpdateGameData.EntryLePreorder | scripts/update_game_data.py:702-710 | comparing sort keys as tuples is a total preorder |
| UpdateGameData.SortEventsProps | scripts/update_game_data.py:700-711 | the sorted events are a permutation of the input in key order, every support ahead of every trainee |
| UpdateGameData.StripIdPrefix | scripts/update_game_data.py:461 | removing the id prefix leaves a suffix of the slug |
| UpdateGameData.SlugToNameProps | scripts/update_game_data.py:458-463 | the name keeps the text after the id, has no hyphen, and a letter is upper case exactly when it starts a word |
| UpdateGameData.StripIdPrefixOf | scripts/update_game_data.py:461 | a leading numeric id and its hyphen are dropped and nothing else |
| UpdateGameData.FindLast | scripts/update_game_data.py:452 | the index of the last occurrence of a character, or -1 when there is none |
| UpdateGameData.VersionSuffixStart | scripts/update_game_data.py:452 | where the trailing parenthesised suffix starts, inside the name |
| UpdateGameData.BaseName | scripts/update_game_data.py:452 | removing the version suffix leaves a prefix of the name |
| UpdateGameData.BaseNameOfVersioned | scripts/update_game_data.py:450-452 | `name (version)` loses exactly the version and the blank before it |
| UpdateGameData.SupportNamesMembers | scripts/update_game_data.py:436-441 | a support name is exactly the non-blank normalised name of some support entry |
| UpdateGameData.CharNamesMembers | scripts/update_game_data.py:443-454 | a character name is the non-blank normalised name of some trainee entry or that name without its version |
| UpdateGameData.CollectSupportNames | scripts/update_game_data.py:436-441 | the first loop collects the support names |
| UpdateGameData.CollectCharNames | scripts/update_game_data.py:443-454 | the second loop collects the character names and base names |
| UpdateGameData.GetExistingNames | scripts/update_game_data.py:429-456 | both name sets of the loaded entries |

## Left out

- Screen capture, YOLO inference, OCR, clicks, `time.sleep` and logging. Their results are inputs: detection lists, OCR texts, per-attempt success flags, frame sequences for polling.
- Text and image similarities are function parameters whose values are only constrained to [0, 1]:
  - rapidfuzz ratios and `difflib.SequenceMatcher`;
  - OpenCV template and HSV matching;
  - pHash computation;
  - the remote matcher.
- The weights that combine these similarities are modelled as real constants.
- Unicode case mapping and normalisation. `str.lower` and `str.upper` are modelled on ASCII letters. Where a title may hold other characters, the Unicode steps are a parameter (`Skills.UnicodeOps`).
- File and network I/O:
  - `Catalog.load`, the file writes of `build_catalog` and `UserPrefs.load`;
  - the skill memory's `load`/`save`;
  - `load_existing_events`, `load_shared_events` and the JSON readers of the scrapers;
  - HTTP, BeautifulSoup and Selenium code, and every argparse `main`.
- HTML-mode parsing in the scrapers: `parse_events_in_card`, `parse_right_cell`, `parse_effects_from_text`, `parse_html_skills_from_str`, `_clean_text` and `discover_json_from_html`. They work on parsed HTML trees.
- The status regular expressions of `_normalize_effect_for_export` (energy limit, mood up, mood down) are predicates passed in. The model does not decide them on the text.
- `SkillMemoryManager`'s wall-clock staleness check. Time is a parameter.
- In core/actions/lobby.py, the part of `_process_date_info` beyond the half-step advance is not modelled. It depends on date helpers from a file that is not part of this model (`date_index`, `date_merge`, `parse_career_date`).
- In core/actions/events.py:
  - the `_is_blue_chain` colour test and the YOLO re-capture of the retry are inputs of the observation;
  - the debug dictionary returned by `process_event_screen` is not modelled.
- Race:
  - The page-scrolling loop of `_pick_race_square` and its desired-race branch are not modelled.
  - The badge OCR is an input; `BADGE_PRIORITY` is a parameter.
  - The confirm stage of `set_strategy` and `_race_result_counters` are not modelled.
- `filter_by_classes` and the detection filters come from core/utils/yolo_objects.py, which is not part of this model.
- AgentScenario:
  - `_update_support_recheck_state` and `_refresh_recheck_targets_cache` are not modelled.
  - The effect of a skill purchase on the skill memory inside the consume step is not modelled. That step returns only the outcome flag.
- ApplyConfig: several settings `apply_config` writes are not fields of the model:
  - plain copies: the ADB and window flags, the hotkey, the debug, external-processor and overlay switches, `FAST_MODE`, `TRY_AGAIN_ON_FAILED_GOAL`, `ACCEPT_CONSECUTIVE_RACE` and `SCENARIO_CONFIRMED`;
  - `MAX_FAILURE` and `AUTO_REST_MINIMUM`, whose `int()` raises on a non-numeric value (core/settings.py:309 and 502);
  - `PRESET_OVERLAY_DURATION`, set to `max(1.0, float(...))` when it converts (core/settings.py:508-512);
  - `WEAK_TURN_SV` and `RACE_PRECHECK_SV`, looked up per scenario with the ura value as fallback (core/settings.py:319-326);
  - `HINT_IS_IMPORTANT`, read from the preset and falling back to the general block (core/settings.py:481-489);
  - `RECHECK_AFTER_HINT_SKILLS`, the sorted union of the required skills of every priority with recheck on (core/settings.py:460-476);
  - `MINIMAL_MOOD`, `REFERENCE_STATS` and `PRIORITY_STATS`, copied from the preset (core/settings.py:478-480);
  - `ACTIVE_AGENT_NAME`, `ACTIVE_YOLO_WEIGHTS` and `ACTIVE_SKILL_MEMORY_PATH` (core/settings.py:315-317);
  - `LOBBY_PRECHECK_ENABLE`, `JUNIOR_MINIMAL_MOOD` and `PLAN_RACES_TENTATIVE` (core/settings.py:327-329).
  The model keeps the clamped, normalised and preset-derived settings and the properties proved about them.
- ConfigConverts (the requires of UndertrainAfter, TopStatsAfter, Settings.ApplyGeneral and Settings.ApplyConfig): the model excludes a `general.advanced` configuration whose `undertrainThreshold` or `topStatsFocus` is present but does not convert, where `float()`/`int()` at core/settings.py:514-523 raise ValueError or TypeError.
- Settings.Settings.constructor: environment-variable overrides of the defaults are not modelled.
- `_pick` of core/utils/waiter.py:439-441 (value or default) is `GetOr` on `Wrappers.Option`. It is a one-line helper and has no row above.
- StyleScheduleManager.constructor: requires every schedule item to be a dict; `StyleScheduleEntry.from_dict` calls `.get` on it, so any other item raises AttributeError.
- ChooseDefaultPreference (and ScoreOutcome behind it): requires every outcome to be `Scorable`: a dict whose hints have a length and whose random stats convert. Other outcomes make `score_outcome` raise TypeError or ValueError.
- ParseEffectsFromEventDict (and ParseEffects): requires every item to be `WellFormedItem`: a dict, and an `sr` roll a list of dicts. Other items make the parser raise AttributeError or TypeError.
- FetchJsonSkills (and JsonSkills): requires every row to satisfy `RowOk`. Rows it excludes are a non-dict row; a complete row whose English name is not a string; a rarity code that is a list or dict; and an unmapped rarity with a non-numeric id. On these, `fetch_json_skills` raises TypeError or AttributeError.
- SortEvents, CollectSupportNames, CollectCharNames and GetExistingNames: require the name (and, for sorting, the rarity and attribute) of each entry to be a string or absent. Python calls `.lower()` on them and raises AttributeError on anything else.
- ScalarText: renders None, booleans, integers and strings as `str()` does. Floats, lists and dicts render as the empty text, where Python renders them (`str(1.5)` is "1.5"). Settings.SkillTexts therefore drops a float skill name, and float Gametora ids all share one key text.
- ParseInt and ParseDecimal (behind ToInt, CoerceFloat and Settings.Clamp): accept an optional sign and ASCII decimal digits; ParseDecimal also accepts a fraction written as a point followed by digits. Python's `int()`/`float()` also accept underscores between digits and non-ASCII digits, and `float()` accepts a leading or trailing point (`".5"`, `"5."`), exponents (`"1e3"`), `"inf"` and `"nan"`. On such text the model reports a failed conversion; for example `_clamp("1e3", 1, 20)` is 20 in Python and 1 in the model.
- GlobMatch: models `*`, `?` and literal characters of `fnmatch`. Bracket sets (`[seq]`, `[!seq]`) are literal characters here, and `os.path.normcase` is the identity, as it is on POSIX.
- FixConfusions, IsWordChar and StripIdPrefix: `str.isalpha`, `\w` and `\d` are modelled on ASCII letters and digits. Python's are Unicode-wide.
- BuySession.constructor: takes the skill memory as a present object. The source guards `if self._skill_memory`, but `skill_memory or SkillMemoryManager(...)` at core/actions/skills.py:82 always supplies one.
- SkillMemoryPath: takes the scenario as given. The `scenario or ACTIVE_SCENARIO` default of core/settings.py:620 is the caller's choice of argument.
- PyGet: answers None for a non-dict, where Python's `.get` raises AttributeError. Where the value may be a non-dict, for example `general` or a preset item in the preset selection (GetActivePreset, ConfigPreset), the source raises and the model reads None.
- UserPrefs.Load and UserPrefs.FromSetup: `from_config`'s docstring (core/utils/event_processor.py:1121-1126) promises defaults for anything missing or malformed, but the code raises on a non-dict `event_setup` or `prefs` and on a per-type default `int()` rejects. The model follows the code: UserPrefs.Load fails exactly on those configurations, and NonNumericDefaultRaises and ListSetupRaises exhibit two of them.
- WeightedBest, BestName and the BuySession scan (ConsiderSquare, ScanActiveSquare, ScanSquare, ScanPass, Run): weigh titles with the corrected boost key "left handed". core/actions/skills.py:432 lists "left-handed", which never matches a normalised title. The as-written key list is `UpweightKeysAsWritten`; Skills.LeftHandedKeyIsDead shows the difference.
- Events.Decide, Events.DecideScreen, Events.EventFlow.HandleMatch and Events.EventFlow.ProcessEventScreen: use the corrected final check, which falls back to the top option for a pick outside 1..len(choices). On the Unity Cup team screen with team text and no visible choice, core/actions/events.py:592-602 raises IndexError instead. The as-written check is `DecideAsWritten`; Events.UnityTeamWithoutChoicesRaises shows the raise.
- Race.SelectStyleButton: uses the corrected ChooseStyle, which gives up when no style button is left. On a lone white button with one change button, core/actions/race.py:1025 raises IndexError instead. The as-written choice is `ChooseStyleAsWritten`; Race.LoneWhiteRaises shows the raise.
- AppendHint and AppendRollFields: a `hints` value that is not a list is treated as a missing list. Python's `setdefault(...).append` raises AttributeError on it. The parser only ever stores lists under `hints`.
- ApplyStatusFields, PreStatusFields and NormalizeEffectFields: require one pair per key (`Dicts.UniqueKeys`), which every Python dict has. The pair-list model of a JSON object could hold duplicates, which no parsed effect does.
- Integer widths: Python integers are unbounded, and so are the model's. Python floats are modelled as exact reals, so rounding is not modelled.

## Findings

| source | as written | input that shows it | evidently intended | confidence | as-written member | corrected member |
|---|---|---|---|---|---|---|
| core/actions/events.py:401-602 | the Unity Cup team event sets the pick to the number of visible choices; the final check only rejects `pick > len(choices)` | the team event with team text and no visible choice: pick 0 passes the check and `choices_sorted[-1]` raises IndexError | a pick outside 1..len(choices) falls back to the top option | high, not executed | Events.UnityTeamWithoutChoicesRaises | Events.UnityTeamWithoutChoicesFallsBack |
| core/actions/skills.py:432-540 | the boost keys include "left-handed", but `_norm_title` turns every hyphen into a space before the keys are searched | the title "Left-Handed" normalises to "left handed" and earns no boost | the left-handed skill earns the 0.05 boost like the other key terms | high, not executed | Skills.LeftHandedKeyIsDead | Skills.LeftHandedExample |
| core/actions/race.py:977-1025 | the style choice falls back to `style_btns[min(idx, len - 1)]` without checking that any style button is left | a single white button, which is taken as the cancel button, leaves no style button; index -1 of an empty list raises IndexError | with no style button, `set_strategy` gives up and returns false | medium, not executed | Race.LoneWhiteRaises | Race.ChooseStyle |
