/**
 * Event preferences (core/utils/event_processor.py, `UserPrefs` and the
 * override helpers): which option number the user wants for an event,
 * resolved through exact overrides, trainee aliases, wildcard patterns and
 * defaults; and the per-entity energy-overflow and reward-priority settings.
 */
module EventPrefs {
  import opened Wrappers
  import opened Strings
  import opened JsonValues
  import Dicts
  import opened EventCatalog
  import opened EventRewards
  import Settings
  import Sorting

  // ---------------------------------------------------------------------
  // Trainee override keys
  // ---------------------------------------------------------------------

  /** Key fields are compared after `strip().lower()`. */
  function Clean(s: string): string
  {
    Lower(Strip(s))
  }

  /** Trainee names that denote the general (any-trainee) records. */
  predicate IsGeneralName(n: string)
  {
    n in {"general", "", "none", "null"}
  }

  /** Attribute and rarity values that mean "no qualifier". */
  predicate IsNoQualifier(q: string)
  {
    q in {"none", "", "null"}
  }

  const GeneralPrefix: seq<string> := ["trainee", "general", "None", "None"]

  /**
   * The `/`-separated fields of an override key's base name a specific
   * trainee: type `trainee`, a real trainee name, no attribute, no rarity,
   * and at least one event segment.
   */
  predicate IsSpecificTraineeBase(parts: seq<string>)
  {
    |parts| >= 5 && Clean(parts[0]) == "trainee" && !IsGeneralName(Clean(parts[1])) &&
    IsNoQualifier(Clean(parts[2])) && IsNoQualifier(Clean(parts[3]))
  }

  /**
   * `_generalize_trainee_key`: a trainee-specific key rewritten to the
   * general trainee's key, keeping the event segments and any `#step` suffix.
   */
  function GeneralizeTraineeKey(key: string): (r: Option<string>)
    ensures r.Some? <==> IsSpecificTraineeBase(Split(Partition(key, '#').0, '/'))
  {
    var (base, sep, step) := Partition(key, '#');
    var parts := Split(base, '/');
    if !IsSpecificTraineeBase(parts) then None
    else Some(GeneralKey(parts[4..], sep, step))
  }

  /** `trainee/general/None/None/<events>`, with `#step` appended when the original key had one. */
  function GeneralKey(events: seq<string>, sep: bool, step: string): string
  {
    var generalized := Join("/", GeneralPrefix + events);
    if sep then generalized + "#" + step else generalized
  }

  lemma {:induction false} JoinNoChar(sep: string, parts: seq<string>, c: char)
    requires !HasChar(sep, c)
    requires forall p :: p in parts ==> !HasChar(p, c)
    ensures !HasChar(Join(sep, parts), c)
    decreases |parts|
  {
    if |parts| > 1 {
      JoinNoChar(sep, parts[1..], c);
      var rest := Join(sep, parts[1..]);
      assert parts[0] in parts;
      forall i | 0 <= i < |parts[0] + sep + rest| ensures (parts[0] + sep + rest)[i] != c {
        if i < |parts[0]| {
        } else if i < |parts[0]| + |sep| {
          assert (parts[0] + sep + rest)[i] == sep[i - |parts[0]|];
        } else {
          assert (parts[0] + sep + rest)[i] == rest[i - |parts[0]| - |sep|];
        }
      }
    } else if |parts| == 1 {
      assert parts[0] in parts;
    }
  }

  /** Every field `s.split(c)` yields is a piece of `s`, so it lacks what `s` lacks. */
  lemma {:induction false} SplitNoChar(s: string, c: char, d: char)
    requires !HasChar(s, d)
    ensures forall p :: p in Split(s, c) ==> !HasChar(p, d)
    decreases |s|
  {
    var i := Find(s, c);
    if i < |s| {
      var tail := s[i + 1..];
      assert !HasChar(tail, d) by {
        forall k | 0 <= k < |tail| ensures tail[k] != d { assert tail[k] == s[i + 1 + k]; }
      }
      SplitNoChar(tail, c, d);
      assert !HasChar(s[..i], d) by {
        forall k | 0 <= k < i ensures s[..i][k] != d { assert s[..i][k] == s[k]; }
      }
    }
  }

  lemma PartitionAt(p: string, rest: string, c: char)
    requires !HasChar(p, c)
    ensures Partition(p + [c] + rest, c) == (p, true, rest)
  {
    FindAfterPrefix(p, rest, c);
    var s := p + [c] + rest;
    assert s[..|p|] == p;
    assert s[|p| + 1..] == rest;
  }

  lemma PartitionNone(s: string, c: char)
    requires !HasChar(s, c)
    ensures Partition(s, c) == (s, false, "")
  {
  }

  lemma GeneralPartsClean(events: seq<string>)
    requires forall p :: p in events ==> !HasChar(p, '/') && !HasChar(p, '#')
    ensures forall p :: p in GeneralPrefix + events ==> !HasChar(p, '/') && !HasChar(p, '#')
  {
    var gParts := GeneralPrefix + events;
    assert forall p :: p in GeneralPrefix ==> !HasChar(p, '/') && !HasChar(p, '#');
    forall p | p in gParts ensures !HasChar(p, '/') && !HasChar(p, '#') {
      if p !in GeneralPrefix {
        var k :| 0 <= k < |gParts| && gParts[k] == p;
        assert p == events[k - 4];
      }
    }
  }

  /** The general key splits back into its fields and its `#` suffix. */
  lemma GeneralKeyFields(events: seq<string>, sep: bool, step: string)
    requires forall p :: p in events ==> !HasChar(p, '/') && !HasChar(p, '#')
    ensures var (gBase, gSep, gStep) := Partition(GeneralKey(events, sep, step), '#');
            Split(gBase, '/') == GeneralPrefix + events && gSep == sep && (sep ==> gStep == step)
  {
    var gParts := GeneralPrefix + events;
    GeneralPartsClean(events);
    var g := Join("/", gParts);
    SplitJoin(gParts, '/');
    JoinNoChar("/", gParts, '#');
    if sep {
      PartitionAt(g, step, '#');
      assert g + "#" + step == g + ['#'] + step;
    } else {
      PartitionNone(g, '#');
    }
  }

  /** The general trainee's fields joined. */
  lemma GeneralPrefixText()
    ensures Join("/", GeneralPrefix) == "trainee/general/None/None"
  {
    var p := GeneralPrefix;
    JoinCons("/", p);
    assert p[1..] == ["general", "None", "None"];
    JoinCons("/", p[1..]);
    assert p[1..][1..] == ["None", "None"];
    JoinCons("/", p[1..][1..]);
    assert p[1..][1..][1..] == ["None"];
  }

  /** The general key starts with the general trainee's fields. */
  lemma GeneralKeyPrefix(events: seq<string>, sep: bool, step: string)
    ensures StartsWith(GeneralKey(events, sep, step), if events == [] then "trainee/general/None/None" else "trainee/general/None/None/")
  {
    var g := Join("/", GeneralPrefix + events);
    JoinConcat("/", GeneralPrefix, events);
    GeneralPrefixText();
    var head := if events == [] then "trainee/general/None/None" else "trainee/general/None/None/";
    if events == [] {
      assert g == head;
      assert StartsWith(g, head);
    } else {
      SlashJoined(Join("/", events));
      assert g == head + Join("/", events);
      assert StartsWith(head, head);
      StartsWithConcat(head, Join("/", events), head);
    }
    assert GeneralKey(events, sep, step) == g + (if sep then "#" + step else "");
    StartsWithConcat(g, if sep then "#" + step else "", head);
  }

  lemma SlashJoined(rest: string)
    ensures "trainee/general/None/None" + ("/" + rest) == "trainee/general/None/None/" + rest
  {
    assert "trainee/general/None/None" + "/" == "trainee/general/None/None/";
  }

  /**
   * The generalised key splits into `trainee/general/None/None` followed by
   * the original event segments, and carries the original `#` suffix.
   */
  lemma GeneralizeShape(key: string)
    requires GeneralizeTraineeKey(key).Some?
    ensures var (base, sep, step) := Partition(key, '#');
            var (gBase, gSep, gStep) := Partition(GeneralizeTraineeKey(key).value, '#');
            Split(gBase, '/') == GeneralPrefix + Split(base, '/')[4..] && gSep == sep && gStep == step
    ensures StartsWith(GeneralizeTraineeKey(key).value, "trainee/general/None/None/")
  {
    var pt := Partition(key, '#');
    var events := Split(pt.0, '/')[4..];
    GeneralizeValue(key);
    EventSegmentsClean(pt.0);
    GeneralKeyFields(events, pt.1, pt.2);
    GeneralKeyPrefix(events, pt.1, pt.2);
  }

  lemma GeneralizeValue(key: string)
    requires GeneralizeTraineeKey(key).Some?
    ensures var (base, sep, step) := Partition(key, '#');
            |Split(base, '/')| >= 5 && GeneralizeTraineeKey(key).value == GeneralKey(Split(base, '/')[4..], sep, step)
  {
  }

  /** The event segments of a key's base name hold neither separator. */
  lemma EventSegmentsClean(base: string)
    requires !HasChar(base, '#') && |Split(base, '/')| >= 4
    ensures forall p :: p in Split(base, '/')[4..] ==> !HasChar(p, '/') && !HasChar(p, '#')
  {
    var parts := Split(base, '/');
    SplitNoChar(base, '/', '#');
    forall p | p in parts[4..] ensures !HasChar(p, '/') && !HasChar(p, '#') {
      assert p in parts;
    }
  }

  lemma CleanGeneral()
    ensures Clean("general") == "general"
  {
    StripNoEdge("general");
    assert Lower("general") == "general";
  }

  lemma GeneralIsNotSpecific(parts: seq<string>)
    requires |parts| >= 2 && parts[1] == "general"
    ensures !IsSpecificTraineeBase(parts)
  {
    CleanGeneral();
  }

  /** A generalised key is no longer trainee-specific. */
  lemma GeneralizeIdempotent(key: string)
    requires GeneralizeTraineeKey(key).Some?
    ensures GeneralizeTraineeKey(GeneralizeTraineeKey(key).value).None?
  {
    var r := GeneralizeTraineeKey(key).value;
    GeneralizedSecondField(key);
    NotSpecificWhenGeneral(r);
  }

  lemma GeneralizedSecondField(key: string)
    requires GeneralizeTraineeKey(key).Some?
    ensures var parts := Split(Partition(GeneralizeTraineeKey(key).value, '#').0, '/');
            |parts| >= 2 && parts[1] == "general"
  {
    GeneralizeShape(key);
    var gBase := Partition(GeneralizeTraineeKey(key).value, '#').0;
    var base := Partition(key, '#').0;
    var parts := Split(gBase, '/');
    assert parts == GeneralPrefix + Split(base, '/')[4..];
    assert parts[1] == GeneralPrefix[1] == "general";
  }

  lemma NotSpecificWhenGeneral(g: string)
    requires var parts := Split(Partition(g, '#').0, '/'); |parts| >= 2 && parts[1] == "general"
    ensures GeneralizeTraineeKey(g).None?
  {
    GeneralIsNotSpecific(Split(Partition(g, '#').0, '/'));
  }

  // ---------------------------------------------------------------------
  // Alias overrides
  // ---------------------------------------------------------------------

  /** Override keys and their option numbers, in insertion order. */
  type Overrides = Dicts.Dict<string, int>

  /** The keys `_build_alias_overrides` tries for one generalised key, in order. */
  function AliasCandidates(alias: string): (cs: seq<string>)
    ensures 2 <= |cs| <= 3 && cs[0] == alias
  {
    var (baseAlias, sep, step) := Partition(alias, '#');
    [alias, baseAlias] +
    (if !sep && baseAlias != "" then [baseAlias + "#s1"]
     else if sep && baseAlias != "" && step != "" && !StartsWith(Lower(step), "s") then [baseAlias + "#s" + step]
     else [])
  }

  /** `_store`: adds `candidate` unless it is empty, an explicit override or an earlier alias. */
  function Store(overrides: Overrides, aliases: Overrides, candidate: string, pick: int): Overrides
  {
    if candidate == "" || Dicts.HasKey(overrides, candidate) || Dicts.HasKey(aliases, candidate) then aliases
    else aliases + [(candidate, pick)]
  }

  function StoreAll(overrides: Overrides, aliases: Overrides, candidates: seq<string>, pick: int): Overrides
    decreases |candidates|
  {
    if candidates == [] then aliases
    else StoreAll(overrides, Store(overrides, aliases, candidates[0], pick), candidates[1..], pick)
  }

  /** The alias candidates of the `i`-th override (none for keys that are not trainee-specific). */
  function CandidatesAt(overrides: Overrides, i: nat): seq<string>
    requires i < |overrides|
  {
    var alias := GeneralizeTraineeKey(overrides[i].0);
    if alias.None? then [] else AliasCandidates(alias.value)
  }

  /** The candidate lists of all overrides, in order. */
  function CandidateLists(overrides: Overrides): (cl: seq<seq<string>>)
    ensures |cl| == |overrides| && forall i :: 0 <= i < |overrides| ==> cl[i] == CandidatesAt(overrides, i)
  {
    seq(|overrides|, i requires 0 <= i < |overrides| => CandidatesAt(overrides, i))
  }

  /** The alias table after the first `n` overrides, given each override's candidate list. */
  function AliasesOf(overrides: Overrides, cands: seq<seq<string>>, n: nat): Overrides
    requires n <= |overrides| == |cands|
  {
    if n == 0 then []
    else StoreAll(overrides, AliasesOf(overrides, cands, n - 1), cands[n - 1], overrides[n - 1].1)
  }

  /** What `_build_alias_overrides` returns. */
  function Aliases(overrides: Overrides): Overrides
  {
    AliasesOf(overrides, CandidateLists(overrides), |overrides|)
  }

  /** The option numbers of the overrides, in order. */
  function Picks(overrides: Overrides): (ps: seq<int>)
    ensures |ps| == |overrides| && forall i :: 0 <= i < |overrides| ==> ps[i] == overrides[i].1
  {
    seq(|overrides|, i requires 0 <= i < |overrides| => overrides[i].1)
  }

  /** An alias table: unique, non-empty keys, none of them an explicit override. */
  predicate AliasTable(overrides: Overrides, aliases: Overrides)
  {
    Dicts.UniqueKeys(aliases) &&
    forall j :: 0 <= j < |aliases| ==> aliases[j].0 != "" && !Dicts.HasKey(overrides, aliases[j].0)
  }

  lemma HasKeyExtends(a: Overrides, r: Overrides, k: string)
    requires |a| <= |r| && r[..|a|] == a
    requires Dicts.HasKey(a, k)
    ensures Dicts.HasKey(r, k)
  {
    Dicts.HasKeyIff(a, k);
    var j :| 0 <= j < |a| && a[j].0 == k;
    assert r[j] == a[j];
    Dicts.HasKeyIff(r, k);
  }

  lemma StoreProps(overrides: Overrides, aliases: Overrides, c: string, pick: int)
    requires AliasTable(overrides, aliases)
    ensures var r := Store(overrides, aliases, c, pick);
            AliasTable(overrides, r) && |aliases| <= |r| && r[..|aliases|] == aliases &&
            (forall j :: |aliases| <= j < |r| ==> r[j].1 == pick) &&
            (c == "" || Dicts.HasKey(overrides, c) || Dicts.HasKey(r, c))
  {
    var r := Store(overrides, aliases, c, pick);
    if r != aliases {
      Dicts.HasKeyIff(aliases, c);
      Dicts.HasKeyIff(r, c);
      assert r[|aliases|].0 == c;
    }
  }

  lemma {:induction false} StoreAllProps(overrides: Overrides, aliases: Overrides, cs: seq<string>, pick: int)
    requires AliasTable(overrides, aliases)
    ensures var r := StoreAll(overrides, aliases, cs, pick);
            AliasTable(overrides, r) && |aliases| <= |r| && r[..|aliases|] == aliases &&
            (forall j :: |aliases| <= j < |r| ==> r[j].1 == pick) &&
            (forall c :: c in cs ==> c == "" || Dicts.HasKey(overrides, c) || Dicts.HasKey(r, c))
    decreases |cs|
  {
    if cs != [] {
      var a1 := Store(overrides, aliases, cs[0], pick);
      StoreProps(overrides, aliases, cs[0], pick);
      StoreAllProps(overrides, a1, cs[1..], pick);
      var r := StoreAll(overrides, aliases, cs, pick);
      assert r[..|a1|] == a1;
      assert r[..|aliases|] == a1[..|aliases|];
      forall c | c in cs ensures c == "" || Dicts.HasKey(overrides, c) || Dicts.HasKey(r, c) {
        if c == cs[0] && c != "" && !Dicts.HasKey(overrides, c) {
          HasKeyExtends(a1, r, c);
        } else if c != cs[0] {
          assert c in cs[1..];
        }
      }
    }
  }

  lemma {:induction false} StoreAllGrows(overrides: Overrides, aliases: Overrides, cs: seq<string>, pick: int)
    ensures var r := StoreAll(overrides, aliases, cs, pick);
            |aliases| <= |r| && r[..|aliases|] == aliases
    decreases |cs|
  {
    if cs != [] {
      var a1 := Store(overrides, aliases, cs[0], pick);
      StoreAllGrows(overrides, a1, cs[1..], pick);
      var r := StoreAll(overrides, aliases, cs, pick);
      assert r[..|aliases|] == a1[..|aliases|];
    }
  }

  predicate IsPrefix<T(==)>(a: seq<T>, r: seq<T>)
  {
    |a| <= |r| && r[..|a|] == a
  }

  lemma PrefixOfPrefix<T>(a: seq<T>, p: seq<T>, r: seq<T>)
    requires IsPrefix(a, p) && IsPrefix(p, r)
    ensures IsPrefix(a, r)
  {
    assert r[..|a|] == r[..|p|][..|a|];
  }

  lemma AliasesStep(overrides: Overrides, cands: seq<seq<string>>, n: nat)
    requires 0 < n <= |overrides| == |cands|
    ensures IsPrefix(AliasesOf(overrides, cands, n - 1), AliasesOf(overrides, cands, n))
  {
    StoreAllGrows(overrides, AliasesOf(overrides, cands, n - 1), cands[n - 1], overrides[n - 1].1);
  }

  /** A shorter prefix of the overrides gives a prefix of the alias table: aliases are never replaced. */
  lemma {:induction false} AliasesGrow(overrides: Overrides, cands: seq<seq<string>>, m: nat, n: nat)
    requires m <= n <= |overrides| == |cands|
    ensures IsPrefix(AliasesOf(overrides, cands, m), AliasesOf(overrides, cands, n))
    decreases n
  {
    if m < n {
      AliasesGrow(overrides, cands, m, n - 1);
      AliasesStep(overrides, cands, n);
      PrefixOfPrefix(AliasesOf(overrides, cands, m), AliasesOf(overrides, cands, n - 1), AliasesOf(overrides, cands, n));
    }
  }

  /**
   * The alias table built from the first `n` overrides is an alias table;
   * every alias carries the option number of some override; and every
   * candidate of every override among the first `n` is empty, an explicit
   * override, or an alias.
   */
  lemma {:induction false} AliasesProps(overrides: Overrides, cands: seq<seq<string>>, n: nat)
    requires n <= |overrides| == |cands|
    ensures var r := AliasesOf(overrides, cands, n);
            AliasTable(overrides, r) &&
            (forall j :: 0 <= j < |r| ==> r[j].1 in Picks(overrides)) &&
            (forall i, c :: 0 <= i < n && c in cands[i] ==>
               c == "" || Dicts.HasKey(overrides, c) || Dicts.HasKey(r, c))
    decreases n
  {
    if n > 0 {
      var p := AliasesOf(overrides, cands, n - 1);
      var r := AliasesOf(overrides, cands, n);
      AliasesProps(overrides, cands, n - 1);
      StoreAllProps(overrides, p, cands[n - 1], overrides[n - 1].1);
      forall j | 0 <= j < |r| ensures r[j].1 in Picks(overrides) {
        if j < |p| {
          assert r[j] == p[j];
        } else {
          assert r[j].1 == Picks(overrides)[n - 1];
        }
      }
      forall i, c | 0 <= i < n && c in cands[i]
        ensures c == "" || Dicts.HasKey(overrides, c) || Dicts.HasKey(r, c)
      {
        if i < n - 1 && c != "" && !Dicts.HasKey(overrides, c) {
          HasKeyExtends(p, r, c);
        }
      }
    }
  }

  /** Every alias pick is at least `lo` when every override pick is. */
  lemma AliasPicksAtLeast(overrides: Overrides, lo: int)
    requires forall i :: 0 <= i < |overrides| ==> overrides[i].1 >= lo
    ensures forall j :: 0 <= j < |Aliases(overrides)| ==> Aliases(overrides)[j].1 >= lo
  {
    AliasesProps(overrides, CandidateLists(overrides), |overrides|);
    var r := Aliases(overrides);
    forall j | 0 <= j < |r| ensures r[j].1 >= lo {
      var i :| 0 <= i < |overrides| && Picks(overrides)[i] == r[j].1;
    }
  }

  /** `_build_alias_overrides`. */
  method BuildAliasOverrides(overrides: Overrides) returns (aliases: Overrides)
    ensures aliases == Aliases(overrides)
  {
    ghost var cands := CandidateLists(overrides);
    aliases := [];
    var i := 0;
    while i < |overrides|
      invariant 0 <= i <= |overrides|
      invariant aliases == AliasesOf(overrides, cands, i)
    {
      aliases := StoreAliases(overrides, cands, aliases, i);
      i := i + 1;
    }
  }

  /** One override of that loop: a trainee-specific key stores its candidates, in order, under its pick. */
  method StoreAliases(overrides: Overrides, ghost cands: seq<seq<string>>, aliases: Overrides, i: nat) returns (r: Overrides)
    requires i < |overrides| && cands == CandidateLists(overrides)
    requires aliases == AliasesOf(overrides, cands, i)
    ensures r == AliasesOf(overrides, cands, i + 1)
  {
    assert cands[i] == CandidatesAt(overrides, i);
    r := aliases;
    var (key, pick) := overrides[i];
    var alias := GeneralizeTraineeKey(key);
    if alias.Some? {
      // `_store(alias)`, `_store(base_alias)`, then the `#s1` / `#s<step>` form
      r := StoreAll(overrides, aliases, AliasCandidates(alias.value), pick);
    }
  }

  // ---------------------------------------------------------------------
  // Specific-trainee overrides for general trainee records
  // ---------------------------------------------------------------------

  /**
   * The step an override key's `#` suffix names: blank means step 1,
   * `s<n>` or `<n>` means step n; `None` when it does not parse, which
   * matches every step.
   */
  function StepIndex(step: string): Option<int>
  {
    var n := Clean(step);
    if n == "" then Some(1)
    else if n[0] == 's' then ParseInt(n[1..])
    else ParseInt(n)
  }

  /** Whether override `key` names a specific trainee's version of the event `targetName` at `targetStep`. */
  predicate MatchesSpecific(key: string, targetName: string, targetStep: int)
  {
    var (base, _, step) := Partition(key, '#');
    var parts := Split(base, '/');
    IsSpecificTraineeBase(parts) && NormalizeText(parts[4]) == targetName &&
    (StepIndex(step).None? || StepIndex(step).value == targetStep)
  }

  /** Index of the first override whose key satisfies `p`, or `|overrides|`. */
  function FirstKeyWhere(overrides: Overrides, p: string -> bool): (i: nat)
    ensures i <= |overrides|
    ensures i < |overrides| ==> p(overrides[i].0)
    ensures forall k :: 0 <= k < i ==> !p(overrides[k].0)
    decreases |overrides|
  {
    if overrides == [] then 0
    else if p(overrides[0].0) then 0
    else 1 + FirstKeyWhere(overrides[1..], p)
  }

  /**
   * `_match_specific_trainee_override`: the pick of the first override that
   * names a specific trainee's version of the record's event and step.
   */
  function SpecificTraineePick(overrides: Overrides, rec: EventRecord): (r: Option<int>)
    ensures var name := NormalizeText(rec.eventName);
            var step := StepOr1(rec.chainStep);
            (r.None? <==> forall i :: 0 <= i < |overrides| ==> !MatchesSpecific(overrides[i].0, name, step)) &&
            (r.Some? ==> exists i :: 0 <= i < |overrides| && MatchesSpecific(overrides[i].0, name, step) &&
                                     r.value == overrides[i].1 &&
                                     forall k :: 0 <= k < i ==> !MatchesSpecific(overrides[k].0, name, step))
  {
    var name := NormalizeText(rec.eventName);
    var step := StepOr1(rec.chainStep);
    var i := FirstKeyWhere(overrides, key => MatchesSpecific(key, name, step));
    if i < |overrides| then Some(overrides[i].1) else None
  }

  // ---------------------------------------------------------------------
  // Wildcard patterns
  // ---------------------------------------------------------------------

  /** `fnmatch.fnmatch(s, p)` for patterns built from `*`, `?` and literal characters. */
  predicate GlobMatch(s: string, p: string)
    decreases |p|, |s|
  {
    if p == [] then s == []
    else if p[0] == '*' then GlobMatch(s, p[1..]) || (s != [] && GlobMatch(s[1..], p))
    else s != [] && (p[0] == '?' || p[0] == s[0]) && GlobMatch(s[1..], p[1..])
  }

  predicate NoWildcards(p: string)
  {
    forall i :: 0 <= i < |p| ==> p[i] != '*' && p[i] != '?'
  }

  /** A pattern without wildcards matches exactly itself. */
  lemma {:induction false} GlobLiteral(s: string, p: string)
    requires NoWildcards(p)
    ensures GlobMatch(s, p) <==> s == p
    decreases |p|
  {
    if p != [] && s != [] {
      GlobLiteral(s[1..], p[1..]);
      if GlobMatch(s, p) {
        assert s == [s[0]] + s[1..];
      }
      if s == p {
        assert s[1..] == p[1..];
      }
    }
  }

  /** `*` matches every string. */
  lemma {:induction false} GlobStar(s: string)
    ensures GlobMatch(s, "*")
    decreases |s|
  {
    assert "*"[1..] == [];
    if s != [] {
      GlobStar(s[1..]);
    }
  }

  /** `prefix*` matches exactly the strings starting with `prefix`. */
  lemma {:induction false} GlobPrefix(s: string, prefix: string)
    requires NoWildcards(prefix)
    ensures GlobMatch(s, prefix + "*") <==> StartsWith(s, prefix)
    decreases |prefix|
  {
    if prefix == [] {
      assert prefix + "*" == "*";
      GlobStar(s);
    } else {
      assert (prefix + "*")[1..] == prefix[1..] + "*";
      if s != [] {
        GlobPrefix(s[1..], prefix[1..]);
        if StartsWith(s, prefix) {
          assert s[1..][..|prefix| - 1] == prefix[1..];
        }
        if StartsWith(s[1..], prefix[1..]) && s[0] == prefix[0] {
          assert s[..|prefix|] == [s[0]] + s[1..][..|prefix| - 1];
        }
      }
    }
  }

  /** Pattern `p` hits the record through its step key or its plain key. */
  predicate PatternHits(p: string, rec: EventRecord)
  {
    GlobMatch(rec.keyStep, p) || GlobMatch(rec.key, p)
  }

  /** Index of the first pattern that hits the record, or `|patterns|`. */
  function FirstPattern(patterns: seq<(string, int)>, rec: EventRecord): (i: nat)
    ensures i <= |patterns|
    ensures i < |patterns| ==> PatternHits(patterns[i].0, rec)
    ensures forall k :: 0 <= k < i ==> !PatternHits(patterns[k].0, rec)
    decreases |patterns|
  {
    if patterns == [] then 0
    else if PatternHits(patterns[0].0, rec) then 0
    else 1 + FirstPattern(patterns[1..], rec)
  }

  // ---------------------------------------------------------------------
  // The pick ladder
  // ---------------------------------------------------------------------

  /** Which rung of the ladder decided a pick. */
  datatype PickSource =
    | ExactStep | ExactKey | AliasStep | AliasKey | SpecificTrainee
    | Pattern(index: nat) | EventDefault | TypeDefault

  datatype Resolution = Resolution(pick: int, source: PickSource)

  predicate IsGeneralTraineeRecord(rec: EventRecord)
  {
    rec.typ == "trainee" && NormalizeText(rec.name) == "general"
  }

  /** What `pick_for` returns, given the alias table in force, and the rung that decided it. */
  function Resolve(overrides: Overrides, aliases: Overrides, patterns: seq<(string, int)>,
                   defaults: Dicts.Dict<string, int>, rec: EventRecord): Resolution
  {
    if Dicts.HasKey(overrides, rec.keyStep) then Resolution(Dicts.Lookup(overrides, rec.keyStep).value, ExactStep)
    else if Dicts.HasKey(overrides, rec.key) then Resolution(Dicts.Lookup(overrides, rec.key).value, ExactKey)
    else if Dicts.HasKey(aliases, rec.keyStep) then Resolution(Dicts.Lookup(aliases, rec.keyStep).value, AliasStep)
    else if Dicts.HasKey(aliases, rec.key) then Resolution(Dicts.Lookup(aliases, rec.key).value, AliasKey)
    else
      var specific := if IsGeneralTraineeRecord(rec) then SpecificTraineePick(overrides, rec) else None;
      if specific.Some? then Resolution(specific.value, SpecificTrainee)
      else
        var i := FirstPattern(patterns, rec);
        if i < |patterns| then Resolution(patterns[i].1, Pattern(i))
        else if rec.defaultPreference.Some? then Resolution(rec.defaultPreference.value, EventDefault)
        else Resolution(Dicts.Lookup(defaults, rec.typ).GetOr(1), TypeDefault)
  }

  function Tag(pick: Option<int>, source: PickSource): Option<Resolution>
  {
    if pick.Some? then Some(Resolution(pick.value, source)) else None
  }

  /** Each rung of the ladder on its own: its pick when it applies. */
  function Rungs(overrides: Overrides, aliases: Overrides, patterns: seq<(string, int)>,
                 defaults: Dicts.Dict<string, int>, rec: EventRecord): seq<Option<Resolution>>
  {
    var i := FirstPattern(patterns, rec);
    [ Tag(Dicts.Lookup(overrides, rec.keyStep), ExactStep),
      Tag(Dicts.Lookup(overrides, rec.key), ExactKey),
      Tag(Dicts.Lookup(aliases, rec.keyStep), AliasStep),
      Tag(Dicts.Lookup(aliases, rec.key), AliasKey),
      if IsGeneralTraineeRecord(rec) then Tag(SpecificTraineePick(overrides, rec), SpecificTrainee) else None,
      if i < |patterns| then Some(Resolution(patterns[i].1, Pattern(i))) else None,
      Tag(rec.defaultPreference, EventDefault),
      Some(Resolution(Dicts.Lookup(defaults, rec.typ).GetOr(1), TypeDefault)) ]
  }

  /** The first present entry of `rs`. */
  function FirstSome<T>(rs: seq<Option<T>>): (r: Option<T>)
    ensures r.Some? <==> exists k :: 0 <= k < |rs| && rs[k].Some?
    ensures r.Some? ==> exists k :: 0 <= k < |rs| && rs[k] == r && forall j :: 0 <= j < k ==> rs[j].None?
  {
    if rs == [] then None
    else if rs[0].Some? then rs[0]
    else
      var r := FirstSome(rs[1..]);
      assert forall k :: 1 <= k < |rs| ==> rs[k] == rs[1..][k - 1];
      r
  }

  lemma {:induction false} FirstSomeAt<T>(rs: seq<Option<T>>, k: nat)
    requires k < |rs| && rs[k].Some? && forall j :: 0 <= j < k ==> rs[j].None?
    ensures FirstSome(rs) == rs[k]
    decreases k
  {
    if k > 0 {
      FirstSomeAt(rs[1..], k - 1);
    }
  }

  /** `pick_for` returns at the first rung that applies, in the fixed ladder order. */
  lemma ResolveIsFirstRung(overrides: Overrides, aliases: Overrides, patterns: seq<(string, int)>,
                           defaults: Dicts.Dict<string, int>, rec: EventRecord)
    ensures Some(Resolve(overrides, aliases, patterns, defaults, rec)) == FirstSome(Rungs(overrides, aliases, patterns, defaults, rec))
  {
    var i := FirstPattern(patterns, rec);
    var specific := if IsGeneralTraineeRecord(rec) then SpecificTraineePick(overrides, rec) else None;
    var pattern := if i < |patterns| then Some(Resolution(patterns[i].1, Pattern(i))) else None;
    var last := Resolution(Dicts.Lookup(defaults, rec.typ).GetOr(1), TypeDefault);
    assert Rungs(overrides, aliases, patterns, defaults, rec) ==
           Ladder(Dicts.Lookup(overrides, rec.keyStep), Dicts.Lookup(overrides, rec.key), Dicts.Lookup(aliases, rec.keyStep),
                  Dicts.Lookup(aliases, rec.key), specific, pattern, rec.defaultPreference, last);
    LadderFirst(Dicts.Lookup(overrides, rec.keyStep), Dicts.Lookup(overrides, rec.key), Dicts.Lookup(aliases, rec.keyStep),
                Dicts.Lookup(aliases, rec.key), specific, pattern, rec.defaultPreference, last);
  }

  /** The eight rungs from what each would pick. */
  function Ladder(a: Option<int>, b: Option<int>, c: Option<int>, d: Option<int>, e: Option<int>,
                  f: Option<Resolution>, g: Option<int>, h: Resolution): seq<Option<Resolution>>
  {
    [Tag(a, ExactStep), Tag(b, ExactKey), Tag(c, AliasStep), Tag(d, AliasKey), Tag(e, SpecificTrainee), f,
     Tag(g, EventDefault), Some(h)]
  }

  lemma LadderFirst(a: Option<int>, b: Option<int>, c: Option<int>, d: Option<int>, e: Option<int>,
                    f: Option<Resolution>, g: Option<int>, h: Resolution)
    ensures FirstSome(Ladder(a, b, c, d, e, f, g, h)) ==
            Some(if a.Some? then Resolution(a.value, ExactStep) else if b.Some? then Resolution(b.value, ExactKey)
                 else if c.Some? then Resolution(c.value, AliasStep) else if d.Some? then Resolution(d.value, AliasKey)
                 else if e.Some? then Resolution(e.value, SpecificTrainee) else if f.Some? then f.value
                 else if g.Some? then Resolution(g.value, EventDefault) else h)
  {
    var rs := Ladder(a, b, c, d, e, f, g, h);
    if a.Some? { FirstSomeAt(rs, 0); }
    else if b.Some? { FirstSomeAt(rs, 1); }
    else if c.Some? { FirstSomeAt(rs, 2); }
    else if d.Some? { FirstSomeAt(rs, 3); }
    else if e.Some? { FirstSomeAt(rs, 4); }
    else if f.Some? { FirstSomeAt(rs, 5); }
    else if g.Some? { FirstSomeAt(rs, 6); }
    else { FirstSomeAt(rs, 7); }
  }

  /**
   * With every override, pattern and default at least 1, and an event
   * default (if any) at least 1, the pick is at least 1.
   */
  lemma PickAtLeastOne(overrides: Overrides, aliases: Overrides, patterns: seq<(string, int)>,
                       defaults: Dicts.Dict<string, int>, rec: EventRecord)
    requires forall i :: 0 <= i < |overrides| ==> overrides[i].1 >= 1
    requires forall i :: 0 <= i < |aliases| ==> aliases[i].1 >= 1
    requires forall i :: 0 <= i < |patterns| ==> patterns[i].1 >= 1
    requires forall i :: 0 <= i < |defaults| ==> defaults[i].1 >= 1
    requires rec.defaultPreference.Some? ==> rec.defaultPreference.value >= 1
    ensures Resolve(overrides, aliases, patterns, defaults, rec).pick >= 1
  {
  }

  /**
   * A general-trainee record whose step key is a candidate alias of a
   * trainee-specific override (and not itself an override) is decided by
   * the alias table, with that override family's pick.
   */
  lemma AliasDecides(overrides: Overrides, patterns: seq<(string, int)>, defaults: Dicts.Dict<string, int>,
                     rec: EventRecord, i: nat)
    requires i < |overrides|
    requires rec.keyStep in CandidatesAt(overrides, i) && rec.keyStep != ""
    requires !Dicts.HasKey(overrides, rec.keyStep) && !Dicts.HasKey(overrides, rec.key)
    ensures var r := Resolve(overrides, Aliases(overrides), patterns, defaults, rec);
            r.source == AliasStep && r.pick in Picks(overrides)
  {
    AliasesProps(overrides, CandidateLists(overrides), |overrides|);
    var a := Aliases(overrides);
    assert Dicts.HasKey(a, rec.keyStep);
    var j := Dicts.IndexOfKey(a, rec.keyStep);
    assert a[j].1 in Picks(overrides);
  }

  // ---------------------------------------------------------------------
  // Reading the preferences out of the active preset
  // ---------------------------------------------------------------------

  predicate IsTrueWord(w: string)
  {
    w in {"true", "1", "yes", "on"}
  }

  predicate IsFalseWord(w: string)
  {
    w in {"false", "0", "no", "off"}
  }

  /** `_coerce_bool`: booleans and numbers by truth value, yes/no words, otherwise `default`. */
  function CoerceBool(v: Json, default: bool): (b: bool)
    ensures v.JBool? ==> b == v.b
    ensures (v.JInt? || v.JFloat?) ==> b == Truthy(v)
    ensures v.JStr? && IsTrueWord(Clean(v.s)) ==> b
    ensures v.JStr? && IsFalseWord(Clean(v.s)) ==> !b
  {
    match v
    case JBool(x) => x
    case JInt(n) => n != 0
    case JFloat(r) => r != 0.0
    case JStr(t) =>
      var w := Clean(t);
      if IsTrueWord(w) then true else if IsFalseWord(w) then false else default
    case _ => default
  }

  /** The default decides only for values that are neither booleans, numbers nor yes/no words. */
  lemma CoerceBoolDefault(v: Json)
    ensures CoerceBool(v, true) != CoerceBool(v, false) <==>
            (v.JNull? || v.JList? || v.JObj? || (v.JStr? && !IsTrueWord(Clean(v.s)) && !IsFalseWord(Clean(v.s))))
  {
  }

  /** `(name, attribute, rarity)` as `_support_key` normalises it. */
  type PrefKey = (string, string, string)

  function OrNone(s: string): string
  {
    if s == "" then "None" else s
  }

  /** `_support_key`: stripped name; stripped, upper-cased attribute and rarity ("None" when empty). */
  function PrefSupportKey(name: string, attribute: string, rarity: string): (k: PrefKey)
    ensures NoEdgeSpace(k.0) && NoEdgeSpace(k.1) && NoEdgeSpace(k.2)
    ensures forall c :: c in k.1 + k.2 ==> !IsLowerAscii(c)
  {
    UpperKeepsEdges(Strip(OrNone(attribute)));
    UpperKeepsEdges(Strip(OrNone(rarity)));
    (Strip(name), Upper(Strip(OrNone(attribute))), Upper(Strip(OrNone(rarity))))
  }

  lemma UpperKeepsEdges(s: string)
    requires NoEdgeSpace(s)
    ensures NoEdgeSpace(Upper(s))
    ensures forall c :: c in Upper(s) ==> !IsLowerAscii(c)
  {
  }

  /** `entry.get(camel)`, falling back to `entry.get(snake)` when that is None. */
  function PrefOr(entry: Json, camel: string, snake: string): Json
  {
    var v := Settings.PyGet(entry, camel);
    if v.JNull? then Settings.PyGet(entry, snake) else v
  }

  /** The preset chosen by `_get_active_preset_from_config`, when it is non-empty. */
  function PresetOf(cfg: Json): Option<Json>
  {
    var p := Settings.GetActivePreset(cfg);
    if p.Some? && Truthy(p.value) then p else None
  }

  /** The preset's `event_setup` block; empty when there is no preset. */
  function SetupOf(cfg: Json): Json
  {
    var p := PresetOf(cfg);
    if p.None? then JObj([]) else Settings.OrEmpty(Settings.PyGet(p.value, "event_setup"))
  }

  /** The `prefs` block of an event setup. */
  function PrefsOf(setup: Json): Json
  {
    Settings.OrEmpty(Settings.PyGet(setup, "prefs"))
  }

  /** The entries whose value `conv` turns into a number of at least 1, later keys overwriting earlier ones. */
  function KeptEntries(fields: seq<(string, Json)>, conv: Json -> Option<int>): Overrides
    decreases |fields|
  {
    if fields == [] then []
    else
      var prev := KeptEntries(fields[..|fields| - 1], conv);
      var (k, v) := fields[|fields| - 1];
      var n := conv(v);
      if n.Some? && n.value >= 1 then Dicts.Assign(prev, k, n.value) else prev
  }

  /** The `overrides` entries whose value converts to an option number of at least 1. */
  function OverrideEntries(fields: seq<(string, Json)>): Overrides
  {
    KeptEntries(fields, ToInt)
  }

  /** The overrides `from_config` keeps. */
  function OverridesIn(prefs: Json): Overrides
  {
    var raw := Settings.OrEmpty(Settings.PyGetOr(prefs, "overrides", JObj([])));
    if raw.JObj? then OverrideEntries(raw.fields) else []
  }

  /**
   * Kept overrides have unique keys and option numbers of at least 1, and a
   * key is kept exactly when some entry under it converts to such a number.
   */
  lemma OverrideEntriesProps(fields: seq<(string, Json)>)
    ensures var o := OverrideEntries(fields);
            Dicts.UniqueKeys(o) && (forall j :: 0 <= j < |o| ==> o[j].1 >= 1) &&
            forall k :: Dicts.HasKey(o, k) <==>
              exists i :: 0 <= i < |fields| && fields[i].0 == k && ToInt(fields[i].1).Some? && ToInt(fields[i].1).value >= 1
  {
    KeptEntriesProps(fields, ToInt);
  }

  lemma {:induction false} KeptEntriesProps(fields: seq<(string, Json)>, conv: Json -> Option<int>)
    ensures var o := KeptEntries(fields, conv);
            Dicts.UniqueKeys(o) && (forall j :: 0 <= j < |o| ==> o[j].1 >= 1) &&
            forall k :: Dicts.HasKey(o, k) <==>
              exists i :: 0 <= i < |fields| && fields[i].0 == k && conv(fields[i].1).Some? && conv(fields[i].1).value >= 1
    decreases |fields|
  {
    if fields != [] {
      var init := fields[..|fields| - 1];
      var prev := KeptEntries(init, conv);
      var (k0, v0) := fields[|fields| - 1];
      KeptEntriesProps(init, conv);
      var o := KeptEntries(fields, conv);
      var n := conv(v0);
      if n.Some? && n.value >= 1 {
        Dicts.AssignProps(prev, k0, n.value);
        forall j | 0 <= j < |o| ensures o[j].1 >= 1 {
          var idx := Dicts.IndexOfKey(prev, k0);
          if idx < |prev| {
            assert o == prev[idx := (k0, n.value)];
          } else {
            assert o == prev + [(k0, n.value)];
          }
        }
      }
      forall k ensures Dicts.HasKey(o, k) <==>
          exists i :: 0 <= i < |fields| && fields[i].0 == k && conv(fields[i].1).Some? && conv(fields[i].1).value >= 1
      {
        if n.Some? && n.value >= 1 && k != k0 {
          assert Dicts.Lookup(o, k) == Dicts.Lookup(prev, k);
        }
        if exists i :: 0 <= i < |fields| && fields[i].0 == k && conv(fields[i].1).Some? && conv(fields[i].1).value >= 1 {
          var i :| 0 <= i < |fields| && fields[i].0 == k && conv(fields[i].1).Some? && conv(fields[i].1).value >= 1;
          if i < |fields| - 1 {
            assert init[i] == fields[i];
          } else {
            assert Dicts.Lookup(o, k0).Some?;
          }
        }
        if Dicts.HasKey(prev, k) {
          var i :| 0 <= i < |init| && init[i].0 == k && conv(init[i].1).Some? && conv(init[i].1).value >= 1;
          assert fields[i] == init[i];
        }
      }
    }
  }


  /** A dict-form `pattern: pick` entry: kept, as written, when its pick converts to an integer. */
  function DictPattern(entry: (string, Json)): Option<(string, int)>
  {
    var n := ToInt(entry.1);
    if n.Some? then Some((entry.0, n.value)) else None
  }

  /**
   * The dict form of `patterns`: each entry whose pick converts to an integer, in the dict's
   * order, with the pattern as written (not stripped) and the pick as converted (not raised to 1).
   */
  function DictPatterns(fields: seq<(string, Json)>): (ps: seq<(string, int)>)
    ensures |ps| <= |fields|
  {
    Sorting.FilterMapLength(fields, DictPattern);
    Sorting.FilterMap(fields, DictPattern)
  }

  /** The dict-form patterns are exactly the entries whose pick converts; when all do, all are kept in order. */
  lemma DictPatternsKept(fields: seq<(string, Json)>)
    ensures forall x :: x in DictPatterns(fields) <==>
              exists i :: 0 <= i < |fields| && fields[i].0 == x.0 && ToInt(fields[i].1) == Some(x.1)
    ensures (forall i :: 0 <= i < |fields| ==> ToInt(fields[i].1).Some?) ==>
              |DictPatterns(fields)| == |fields| &&
              forall i :: 0 <= i < |fields| ==> DictPatterns(fields)[i] == (fields[i].0, ToInt(fields[i].1).value)
  {
    Sorting.FilterMapKeep(fields, DictPattern);
    Sorting.FilterMapFrom(fields, DictPattern);
    if forall i :: 0 <= i < |fields| ==> ToInt(fields[i].1).Some? {
      Sorting.FilterMapAll(fields, DictPattern);
    }
  }

  /** A list-form pattern item: a dict with a non-blank pattern; its pick defaults to 1 and is raised to 1. */
  function ListPattern(item: Json): (r: Option<(string, int)>)
    ensures r.Some? ==> r.value.0 != "" && NoEdgeSpace(r.value.0) && r.value.1 >= 1
  {
    if !item.JObj? then None
    else
      var pat := Strip(ScalarText(Settings.PyGetOr(item, "pattern", JStr(""))));
      if pat == "" then None
      else
        var pick := ToInt(Settings.PyGetOr(item, "pick", JInt(1))).GetOr(1);
        Some((pat, if pick >= 1 then pick else 1))
  }

  /** The list form of `patterns`: the items `ListPattern` accepts, in list order. */
  function ListPatterns(items: seq<Json>): (ps: seq<(string, int)>)
    ensures |ps| <= |items|
    ensures forall j :: 0 <= j < |ps| ==> ps[j].0 != "" && ps[j].1 >= 1
  {
    Sorting.FilterMapLength(items, ListPattern);
    AcceptedPatternsWellFormed(items);
    Sorting.FilterMap(items, ListPattern)
  }

  lemma AcceptedPatternsWellFormed(items: seq<Json>)
    ensures var ps := Sorting.FilterMap(items, ListPattern);
            forall j :: 0 <= j < |ps| ==> ps[j].0 != "" && ps[j].1 >= 1
  {
    var ps := Sorting.FilterMap(items, ListPattern);
    Sorting.FilterMapFrom(items, ListPattern);
    forall j | 0 <= j < |ps|
      ensures ps[j].0 != "" && ps[j].1 >= 1
    {
      assert ps[j] in ps;
      var i :| 0 <= i < |items| && ListPattern(items[i]) == Some(ps[j]);
    }
  }

  /** The list-form patterns are exactly the accepted items; when all are accepted, all are kept in order. */
  lemma ListPatternsKept(items: seq<Json>)
    ensures forall x :: x in ListPatterns(items) <==> exists i :: 0 <= i < |items| && ListPattern(items[i]) == Some(x)
    ensures (forall i :: 0 <= i < |items| ==> ListPattern(items[i]).Some?) ==>
              |ListPatterns(items)| == |items| &&
              forall i :: 0 <= i < |items| ==> Some(ListPatterns(items)[i]) == ListPattern(items[i])
  {
    Sorting.FilterMapKeep(items, ListPattern);
    Sorting.FilterMapFrom(items, ListPattern);
    if forall i :: 0 <= i < |items| ==> ListPattern(items[i]).Some? {
      Sorting.FilterMapAll(items, ListPattern);
    }
  }

  /** The `patterns` `from_config` reads, dict form or list form. */
  function PatternsIn(prefs: Json): seq<(string, int)>
  {
    var src := PatternSource(prefs);
    if src.JObj? then DictPatterns(src.fields)
    else if src.JList? then ListPatterns(src.items)
    else []
  }

  const EventTypes: seq<string> := ["support", "trainee", "scenario"]

  /** `int(d.get(t, 1) or 1)`; `None` where Python's `int` raises. */
  function TypeDefaultIn(d: Json, t: string): Option<int>
  {
    var v := Settings.PyGetOr(d, t, JInt(1));
    ToInt(if Truthy(v) then v else JInt(1))
  }

  function DefaultsBlock(prefs: Json): Json
  {
    Settings.OrEmpty(Settings.PyGetOr(prefs, "defaults", JObj([])))
  }

  /** `prefs.get("patterns", []) or []`. */
  function PatternSource(prefs: Json): Json
  {
    Settings.OrEmpty(Settings.PyGetOr(prefs, "patterns", JList([])))
  }

  /**
   * `from_config` returns normally: the preset (when there is one), its
   * `event_setup`, `prefs` and `defaults` blocks are dicts or empty,
   * `patterns` is a dict, a list or a string, and every per-type default
   * converts to an integer. Otherwise Python raises.
   */
  predicate FromConfigDefined(cfg: Json)
  {
    var p := PresetOf(cfg);
    (p.None? || p.value.JObj?) && SetupDefined(SetupOf(cfg))
  }

  /** A per-type default that is not a number makes `from_config` raise rather than fall back to 1. */
  lemma NonNumericDefaultRaises()
    ensures !SetupDefined(JObj([("prefs", JObj([("defaults", JObj([("support", JStr("abc"))]))]))]))
  {
    var d := JObj([("support", JStr("abc"))]);
    var prefs := JObj([("defaults", d)]);
    assert PrefsOf(JObj([("prefs", prefs)])) == prefs;
    assert DefaultsBlock(prefs) == d;
    assert ParseInt("abc").None?;
    assert TypeDefaultIn(d, "support").None?;
  }

  /** An `event_setup` that is a non-empty list makes `from_config` raise. */
  lemma ListSetupRaises()
    ensures !SetupDefined(JList([JInt(1)]))
  {
  }

  /** The `event_setup` part of that condition. */
  predicate SetupDefined(setup: Json)
  {
    var prefs := PrefsOf(setup);
    var src := PatternSource(prefs);
    var d := DefaultsBlock(prefs);
    setup.JObj? && prefs.JObj? &&
    (src.JObj? || src.JList? || src.JStr?) && d.JObj? &&
    TypeDefaultIn(d, "support").Some? && TypeDefaultIn(d, "trainee").Some? && TypeDefaultIn(d, "scenario").Some?
  }

  /** The per-type defaults, in the order `support`, `trainee`, `scenario`. */
  function DefaultsIn(prefs: Json): (d: Dicts.Dict<string, int>)
    requires var b := DefaultsBlock(prefs);
             TypeDefaultIn(b, "support").Some? && TypeDefaultIn(b, "trainee").Some? && TypeDefaultIn(b, "scenario").Some?
    ensures |d| == 3 && forall j :: 0 <= j < 3 ==> d[j].0 == EventTypes[j]
  {
    var b := DefaultsBlock(prefs);
    [("support", TypeDefaultIn(b, "support").value),
     ("trainee", TypeDefaultIn(b, "trainee").value),
     ("scenario", TypeDefaultIn(b, "scenario").value)]
  }

  /** `prefs.get("rewardPriority") or prefs.get("reward_priority")`. */
  function RawRewardPriority(prefs: Json): Json
  {
    var v := Settings.PyGet(prefs, "rewardPriority");
    if Truthy(v) then v else Settings.PyGet(prefs, "reward_priority")
  }

  /** The support entries of an event setup. */
  function SupportList(setup: Json): seq<Json>
  {
    var raw := Settings.OrEmpty(Settings.PyGetOr(setup, "supports", JList([])));
    if raw.JList? then raw.items else []
  }

  /** The key of a support entry naming a card: a dict with truthy name, rarity and attribute. */
  function SupportEntryKey(entry: Json): Option<PrefKey>
  {
    if !entry.JObj? then None
    else
      var name := Settings.PyGet(entry, "name");
      var rarity := Settings.PyGet(entry, "rarity");
      var attribute := Settings.PyGet(entry, "attribute");
      if Truthy(name) && Truthy(rarity) && Truthy(attribute)
      then Some(PrefSupportKey(ScalarText(name), ScalarText(attribute), ScalarText(rarity)))
      else None
  }

  /** The energy-overflow flag of each card (default on), later entries replacing earlier ones. */
  function SupportFlags(entries: seq<Json>): Dicts.Dict<PrefKey, bool>
    decreases |entries|
  {
    if entries == [] then []
    else
      var prev := SupportFlags(entries[..|entries| - 1]);
      var e := entries[|entries| - 1];
      var k := SupportEntryKey(e);
      if k.None? then prev
      else Dicts.Assign(prev, k.value, CoerceBool(PrefOr(e, "avoidEnergyOverflow", "avoid_energy_overflow"), true))
  }

  /** The normalised reward priority of each card that sets one. */
  function SupportPriorities(entries: seq<Json>): Dicts.Dict<PrefKey, seq<string>>
    decreases |entries|
  {
    if entries == [] then []
    else
      var prev := SupportPriorities(entries[..|entries| - 1]);
      var e := entries[|entries| - 1];
      var k := SupportEntryKey(e);
      var raw := PrefOr(e, "rewardPriority", "reward_priority");
      if k.None? || raw.JNull? then prev
      else Dicts.Assign(prev, k.value, RewardPriority(raw))
  }

  /** The `scenario` or `trainee` entry of a setup and its normalised key, when it is a dict with a name. */
  function EntityEntry(setup: Json, field: string): Option<(string, Json)>
  {
    var entry := Settings.PyGet(setup, field);
    if !entry.JObj? then None
    else
      var name := Settings.PyGet(entry, "name");
      if Truthy(name) then Some((NormalizeText(ScalarText(name)), entry)) else None
  }

  function EntityFlags(setup: Json, field: string): Dicts.Dict<string, bool>
  {
    var e := EntityEntry(setup, field);
    if e.None? then []
    else [(e.value.0, CoerceBool(PrefOr(e.value.1, "avoidEnergyOverflow", "avoid_energy_overflow"), true))]
  }

  function EntityPriorities(setup: Json, field: string): Dicts.Dict<string, seq<string>>
  {
    var e := EntityEntry(setup, field);
    if e.None? then []
    else
      var raw := PrefOr(e.value.1, "rewardPriority", "reward_priority");
      if raw.JNull? then [] else [(e.value.0, RewardPriority(raw))]
  }

  /** The configured trainee's name, stripped. */
  function PreferredTrainee(setup: Json): Option<string>
  {
    var entry := Settings.PyGet(setup, "trainee");
    if !entry.JObj? then None
    else
      var name := Settings.PyGet(entry, "name");
      if Truthy(name) then Some(Strip(ScalarText(name))) else None
  }

  /** A normalised reward-priority list: non-empty, no repeats, valid categories only. */
  predicate PriorityList(l: seq<string>)
  {
    l != [] && NoDuplicates(l) && forall c :: c in l ==> c in ValidCategories
  }

  predicate AllPriorityLists<K>(d: Dicts.Dict<K, seq<string>>)
  {
    forall j :: 0 <= j < |d| ==> PriorityList(d[j].1)
  }

  lemma AssignPriorityList<K>(d: Dicts.Dict<K, seq<string>>, k: K, raw: Json)
    requires AllPriorityLists(d)
    ensures AllPriorityLists(Dicts.Assign(d, k, RewardPriority(raw)))
  {
    RewardPriorityProps(raw);
  }

  lemma {:induction false} SupportPrioritiesValid(entries: seq<Json>)
    ensures AllPriorityLists(SupportPriorities(entries))
    decreases |entries|
  {
    if entries != [] {
      var e := entries[|entries| - 1];
      SupportPrioritiesValid(entries[..|entries| - 1]);
      var k := SupportEntryKey(e);
      var raw := PrefOr(e, "rewardPriority", "reward_priority");
      if k.Some? && !raw.JNull? {
        AssignPriorityList(SupportPriorities(entries[..|entries| - 1]), k.value, raw);
      }
    }
  }

  lemma EntityPrioritiesValid(setup: Json, field: string)
    ensures AllPriorityLists(EntityPriorities(setup, field))
  {
    var e := EntityEntry(setup, field);
    if e.Some? {
      RewardPriorityProps(PrefOr(e.value.1, "rewardPriority", "reward_priority"));
    }
  }

  /**
   * Without a (non-empty) preset, every setting takes its built-in default:
   * no overrides or patterns, type defaults 1, overflow avoidance on, the
   * default reward priority, nothing per entity.
   */
  lemma NoPresetDefaults(cfg: Json)
    requires PresetOf(cfg).None?
    ensures var setup := SetupOf(cfg);
            var prefs := PrefsOf(setup);
            OverridesIn(prefs) == [] && PatternsIn(prefs) == [] && FromConfigDefined(cfg) &&
            DefaultsIn(prefs) == [("support", 1), ("trainee", 1), ("scenario", 1)] &&
            CoerceBool(PrefOr(prefs, "avoidEnergyOverflow", "avoid_energy_overflow"), true) &&
            RewardPriority(RawRewardPriority(prefs)) == DefaultRewardPriority &&
            SupportList(setup) == [] && EntityEntry(setup, "scenario").None? &&
            EntityEntry(setup, "trainee").None? && PreferredTrainee(setup).None? &&
            Aliases(OverridesIn(prefs)) == []
  {
    assert SetupOf(cfg) == JObj([]);
    EmptyPrefsBlock();
    EmptyPrefsDefined();
    EmptyPrefsValues();
    EmptySetupValues();
  }

  lemma EmptyPrefsBlock()
    ensures PrefsOf(JObj([])) == JObj([])
  {
  }

  /** An empty `prefs` block passes every check `from_config` makes. */
  lemma EmptyPrefsDefined()
    ensures var src := PatternSource(JObj([])); var d := DefaultsBlock(JObj([]));
            (src.JObj? || src.JList? || src.JStr?) && d.JObj? &&
            TypeDefaultIn(d, "support").Some? && TypeDefaultIn(d, "trainee").Some? && TypeDefaultIn(d, "scenario").Some?
  {
  }

  lemma EmptyPrefsValues()
    ensures OverridesIn(JObj([])) == [] && PatternsIn(JObj([])) == []
    ensures DefaultsIn(JObj([])) == [("support", 1), ("trainee", 1), ("scenario", 1)]
    ensures CoerceBool(PrefOr(JObj([]), "avoidEnergyOverflow", "avoid_energy_overflow"), true)
    ensures RewardPriority(RawRewardPriority(JObj([]))) == DefaultRewardPriority
    ensures Aliases([]) == []
  {
  }

  lemma EmptySetupValues()
    ensures SupportList(JObj([])) == [] && EntityEntry(JObj([]), "scenario").None? &&
            EntityEntry(JObj([]), "trainee").None? && PreferredTrainee(JObj([])).None?
  {
  }

  // ---------------------------------------------------------------------
  // The loops of `from_config`
  // ---------------------------------------------------------------------

  /** The `overrides` loop: keeps the entries converting to at least 1. */
  method ParseOverrides(prefs: Json) returns (overrides: Overrides)
    ensures overrides == OverridesIn(prefs)
  {
    overrides := [];
    var raw := Settings.OrEmpty(Settings.PyGetOr(prefs, "overrides", JObj([])));
    if raw.JObj? {
      var fields := raw.fields;
      var i := 0;
      while i < |fields|
        invariant 0 <= i <= |fields|
        invariant overrides == KeptEntries(fields[..i], ToInt)
      {
        assert fields[..i + 1][..i] == fields[..i];
        var n := ToInt(fields[i].1);
        if n.Some? && n.value >= 1 {
          overrides := Dicts.Assign(overrides, fields[i].0, n.value);
        }
        i := i + 1;
      }
      assert fields[..|fields|] == fields;
    }
  }

  /** The `patterns` loop, over the dict form or the list form. */
  method ParsePatterns(prefs: Json) returns (patterns: seq<(string, int)>)
    ensures patterns == PatternsIn(prefs)
  {
    patterns := [];
    var src := PatternSource(prefs);
    if src.JObj? {
      var fields := src.fields;
      var i := 0;
      while i < |fields|
        invariant 0 <= i <= |fields|
        invariant patterns == DictPatterns(fields[..i])
      {
        assert fields[..i + 1][..i] == fields[..i];
        var n := ToInt(fields[i].1);
        if n.Some? {
          patterns := patterns + [(fields[i].0, n.value)];
        }
        i := i + 1;
      }
      assert fields[..|fields|] == fields;
    } else if src.JList? {
      var items := src.items;
      var i := 0;
      while i < |items|
        invariant 0 <= i <= |items|
        invariant patterns == ListPatterns(items[..i])
      {
        assert items[..i + 1][..i] == items[..i];
        var r := ListPattern(items[i]);
        if r.Some? {
          patterns := patterns + [r.value];
        }
        i := i + 1;
      }
      assert items[..|items|] == items;
    }
  }

  /** The `supports` loop: per-card overflow flags and reward priorities. */
  method ParseSupports(setup: Json) returns (flags: Dicts.Dict<PrefKey, bool>, priorities: Dicts.Dict<PrefKey, seq<string>>)
    ensures flags == SupportFlags(SupportList(setup))
    ensures priorities == SupportPriorities(SupportList(setup))
  {
    var entries := SupportList(setup);
    flags, priorities := [], [];
    var i := 0;
    while i < |entries|
      invariant 0 <= i <= |entries|
      invariant flags == SupportFlags(entries[..i])
      invariant priorities == SupportPriorities(entries[..i])
    {
      assert entries[..i + 1][..i] == entries[..i];
      var e := entries[i];
      var k := SupportEntryKey(e);
      if k.Some? {
        flags := Dicts.Assign(flags, k.value, CoerceBool(PrefOr(e, "avoidEnergyOverflow", "avoid_energy_overflow"), true));
        var raw := PrefOr(e, "rewardPriority", "reward_priority");
        if !raw.JNull? {
          priorities := Dicts.Assign(priorities, k.value, RewardPriority(raw));
        }
      }
      i := i + 1;
    }
    assert entries[..|entries|] == entries;
  }

  /** Per-card tables have one entry per card. */
  lemma {:induction false} SupportTablesUnique(entries: seq<Json>)
    ensures Dicts.UniqueKeys(SupportFlags(entries))
    ensures Dicts.UniqueKeys(SupportPriorities(entries))
    decreases |entries|
  {
    if entries != [] {
      var init := entries[..|entries| - 1];
      var e := entries[|entries| - 1];
      SupportTablesUnique(init);
      var k := SupportEntryKey(e);
      if k.Some? {
        Dicts.AssignProps(SupportFlags(init), k.value, CoerceBool(PrefOr(e, "avoidEnergyOverflow", "avoid_energy_overflow"), true));
        var raw := PrefOr(e, "rewardPriority", "reward_priority");
        if !raw.JNull? {
          Dicts.AssignProps(SupportPriorities(init), k.value, RewardPriority(raw));
        }
      }
    }
  }

  /** Every reward priority read from a preset is a normalised list. */
  lemma ConfigPrioritiesValid(setup: Json, prefs: Json)
    ensures PriorityList(RewardPriority(RawRewardPriority(prefs)))
    ensures AllPriorityLists(SupportPriorities(SupportList(setup)))
    ensures AllPriorityLists(EntityPriorities(setup, "scenario")) && AllPriorityLists(EntityPriorities(setup, "trainee"))
  {
    RewardPriorityProps(RawRewardPriority(prefs));
    SupportPrioritiesValid(SupportList(setup));
    EntityPrioritiesValid(setup, "scenario");
    EntityPrioritiesValid(setup, "trainee");
  }

  /** The option numbers of the overrides are all at least 1. */
  predicate PositivePicks(o: Overrides)
  {
    forall j :: 0 <= j < |o| ==> o[j].1 >= 1
  }

  // ---------------------------------------------------------------------
  // UserPrefs
  // ---------------------------------------------------------------------

  /** The event preferences of the active preset, and how a record's option is chosen. */
  class UserPrefs {
    var overrides: Overrides
    var patterns: seq<(string, int)>
    var defaultByType: Dicts.Dict<string, int>
    var aliasOverrides: Overrides
    var avoidEnergyOverflow: bool
    var avoidBySupport: Dicts.Dict<PrefKey, bool>
    var avoidByScenario: Dicts.Dict<string, bool>
    var avoidByTrainee: Dicts.Dict<string, bool>
    var rewardPriority: seq<string>
    var priorityBySupport: Dicts.Dict<PrefKey, seq<string>>
    var priorityByScenario: Dicts.Dict<string, seq<string>>
    var priorityByTrainee: Dicts.Dict<string, seq<string>>
    var preferredTraineeName: Option<string>

    /**
     * Every stored reward priority is a normalised list, and the alias table
     * is either not built yet or the one derived from the overrides.
     */
    predicate Valid()
      reads this
    {
      PriorityList(rewardPriority) && AllPriorityLists(priorityBySupport) &&
      AllPriorityLists(priorityByScenario) && AllPriorityLists(priorityByTrainee) &&
      (aliasOverrides == [] || aliasOverrides == Aliases(overrides))
    }

    /**
     * The body of `from_config` once the active preset's `event_setup` is found: the preferences
     * that setup gives, built-in defaults where it gives none. `Load` finds the setup.
     */
    constructor FromSetup(setup: Json)
      requires SetupDefined(setup)
      ensures Valid() && LoadedFrom(setup)
    {
      var prefs := PrefsOf(setup);
      var o := ParseOverrides(prefs);
      var aliases := BuildAliasOverrides(o);
      var ps := ParsePatterns(prefs);
      var flags, priorities := ParseSupports(setup);
      ConfigPrioritiesValid(setup, prefs);
      overrides := o;
      aliasOverrides := aliases;
      patterns := ps;
      defaultByType := DefaultsIn(prefs);
      avoidEnergyOverflow := CoerceBool(PrefOr(prefs, "avoidEnergyOverflow", "avoid_energy_overflow"), true);
      rewardPriority := RewardPriority(RawRewardPriority(prefs));
      avoidBySupport := flags;
      priorityBySupport := priorities;
      avoidByScenario := EntityFlags(setup, "scenario");
      priorityByScenario := EntityPriorities(setup, "scenario");
      avoidByTrainee := EntityFlags(setup, "trainee");
      priorityByTrainee := EntityPriorities(setup, "trainee");
      preferredTraineeName := PreferredTrainee(setup);
    }

    /** Every field holds what the event setup `setup` says, defaults where it says nothing. */
    predicate LoadedFrom(setup: Json)
      requires SetupDefined(setup)
      reads this
    {
      var prefs := PrefsOf(setup);
      overrides == OverridesIn(prefs) && patterns == PatternsIn(prefs) &&
      defaultByType == DefaultsIn(prefs) && aliasOverrides == Aliases(overrides) &&
      avoidEnergyOverflow == CoerceBool(PrefOr(prefs, "avoidEnergyOverflow", "avoid_energy_overflow"), true) &&
      rewardPriority == RewardPriority(RawRewardPriority(prefs)) &&
      avoidBySupport == SupportFlags(SupportList(setup)) &&
      priorityBySupport == SupportPriorities(SupportList(setup)) &&
      avoidByScenario == EntityFlags(setup, "scenario") &&
      priorityByScenario == EntityPriorities(setup, "scenario") &&
      avoidByTrainee == EntityFlags(setup, "trainee") &&
      priorityByTrainee == EntityPriorities(setup, "trainee") &&
      preferredTraineeName == PreferredTrainee(setup)
    }

    /** `from_config` with its raise: `None` exactly on the configurations where Python raises. */
    static method Load(cfg: Json) returns (r: Option<UserPrefs>)
      ensures r.None? <==> !FromConfigDefined(cfg)
      ensures r.Some? ==> fresh(r.value) && FromConfigDefined(cfg) && r.value.Valid() && r.value.LoadedFrom(SetupOf(cfg))
    {
      if !FromConfigDefined(cfg) {
        return None;
      }
      var prefs := new UserPrefs.FromSetup(SetupOf(cfg));
      r := Some(prefs);
    }


    /** The reward priority stored for the record's own support card, scenario or trainee. */
    function OwnPriority(rec: EventRecord): Option<seq<string>>
      reads this
    {
      if rec.typ == "support" then Dicts.Lookup(priorityBySupport, PrefSupportKey(rec.name, rec.attribute, rec.rarity))
      else if rec.typ == "scenario" then Dicts.Lookup(priorityByScenario, NormalizeText(rec.name))
      else if rec.typ == "trainee" then Dicts.Lookup(priorityByTrainee, NormalizeText(rec.name))
      else None
    }

    /**
     * `reward_priority_for`: the record's own list when one is stored and
     * non-empty, otherwise the preset-wide list; always a normalised list.
     */
    function RewardPriorityFor(rec: EventRecord): (r: seq<string>)
      requires Valid()
      reads this
      ensures PriorityList(r)
      ensures OwnPriority(rec).None? ==> r == rewardPriority
      ensures OwnPriority(rec).Some? ==> r == OwnPriority(rec).value
    {
      var own := OwnPriority(rec);
      if own.Some? && own.value != [] then own.value else rewardPriority
    }

    /** The overflow flag stored for the record's own support card, scenario or trainee. */
    function OwnAvoidFlag(rec: EventRecord): Option<bool>
      reads this
    {
      if rec.typ == "support" then Dicts.Lookup(avoidBySupport, PrefSupportKey(rec.name, rec.attribute, rec.rarity))
      else if rec.typ == "scenario" then Dicts.Lookup(avoidByScenario, NormalizeText(rec.name))
      else if rec.typ == "trainee" then Dicts.Lookup(avoidByTrainee, NormalizeText(rec.name))
      else None
    }

    /** `should_avoid_energy`: the record's own flag when one is stored, otherwise the preset-wide flag. */
    function ShouldAvoidEnergy(rec: EventRecord): (b: bool)
      reads this
      ensures OwnAvoidFlag(rec).Some? ==> b == OwnAvoidFlag(rec).value
      ensures OwnAvoidFlag(rec).None? ==> b == avoidEnergyOverflow
    {
      OwnAvoidFlag(rec).GetOr(avoidEnergyOverflow)
    }

    /**
     * `pick_for`: the option the preference ladder chooses for the record.
     * The alias table is built on first need when it is still empty.
     */
    method PickFor(rec: EventRecord) returns (pick: int)
      requires Valid()
      modifies this`aliasOverrides
      ensures Valid()
      ensures aliasOverrides == old(aliasOverrides) || aliasOverrides == Aliases(overrides)
      ensures pick == Resolve(overrides, Aliases(overrides), patterns, defaultByType, rec).pick
    {
      var exact := Dicts.Lookup(overrides, rec.keyStep);
      if exact.Some? {
        return exact.value;
      }
      exact := Dicts.Lookup(overrides, rec.key);
      if exact.Some? {
        return exact.value;
      }
      EnsureAliases();
      pick := PickAfterExact(overrides, aliasOverrides, patterns, defaultByType, rec);
    }

    /** The lazy alias build of `pick_for`: only when the table is empty and there are overrides. */
    method EnsureAliases()
      requires Valid()
      modifies this`aliasOverrides
      ensures Valid()
      ensures aliasOverrides == Aliases(overrides)
      ensures old(aliasOverrides) != [] ==> aliasOverrides == old(aliasOverrides)
    {
      if aliasOverrides == [] && overrides != [] {
        aliasOverrides := BuildAliasOverrides(overrides);
      }
    }
  }

  /** The ladder of `pick_for` once neither exact override applies. */
  method PickAfterExact(overrides: Overrides, aliases: Overrides, patterns: seq<(string, int)>,
                        defaults: Dicts.Dict<string, int>, rec: EventRecord) returns (pick: int)
    requires !Dicts.HasKey(overrides, rec.keyStep) && !Dicts.HasKey(overrides, rec.key)
    ensures pick == Resolve(overrides, aliases, patterns, defaults, rec).pick
  {
    var alias := Dicts.Lookup(aliases, rec.keyStep);
    if alias.Some? {
      return alias.value;
    }
    alias := Dicts.Lookup(aliases, rec.key);
    if alias.Some? {
      return alias.value;
    }
    if IsGeneralTraineeRecord(rec) {
      var specific := SpecificTraineePick(overrides, rec);
      if specific.Some? {
        return specific.value;
      }
    }
    var i := ScanPatterns(patterns, rec);
    if i < |patterns| {
      return patterns[i].1;
    }
    if rec.defaultPreference.Some? {
      return rec.defaultPreference.value;
    }
    return Dicts.Lookup(defaults, rec.typ).GetOr(1);
  }

  /** The pattern loop of `pick_for`: the first pattern matching the step-aware or the plain key. */
  method ScanPatterns(patterns: seq<(string, int)>, rec: EventRecord) returns (i: nat)
    ensures i == FirstPattern(patterns, rec)
  {
    i := 0;
    while i < |patterns|
      invariant 0 <= i <= |patterns|
      invariant forall k :: 0 <= k < i ==> !PatternHits(patterns[k].0, rec)
    {
      if GlobMatch(rec.keyStep, patterns[i].0) || GlobMatch(rec.key, patterns[i].0) {
        FirstPatternAt(patterns, rec, i);
        return;
      }
      i := i + 1;
    }
    FirstPatternAt(patterns, rec, i);
  }

  /** The first hit found by scanning the patterns in order is `FirstPattern`. */
  lemma FirstPatternAt(patterns: seq<(string, int)>, rec: EventRecord, i: nat)
    requires i <= |patterns|
    requires i < |patterns| ==> PatternHits(patterns[i].0, rec)
    requires forall k :: 0 <= k < i ==> !PatternHits(patterns[k].0, rec)
    ensures FirstPattern(patterns, rec) == i
  {
  }

  /** With no overrides there is nothing to alias. */
  lemma NoOverridesNoAliases(overrides: Overrides)
    requires overrides == []
    ensures Aliases(overrides) == []
  {
  }
}
