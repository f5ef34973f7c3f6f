/**
 * The event-data updater: the key of an entry, the keyed merge of freshly
 * scraped entries into the existing list (migrating entries written before
 * Gametora ids were recorded), the export order, slug names and the sets of
 * names already present.
 */
module UpdateGameData {
  import opened Wrappers
  import opened Strings
  import opened JsonValues
  import opened Sorting

  // ---------------------------------------------------------------------
  // Entry keys
  // ---------------------------------------------------------------------

  function IdOf(e: Json): Json
  {
    Field(e, "gametora_id").GetOr(JNull)
  }

  /** `entry.get("gametora_id")` is truthy. */
  predicate HasId(e: Json)
  {
    Truthy(IdOf(e))
  }

  /** `entry.get("type") == "support"`. */
  predicate IsSupport(e: Json)
  {
    Field(e, "type") == Some(JStr("support"))
  }

  /** `entry.get("type") == "trainee"`. */
  predicate IsTrainee(e: Json)
  {
    Field(e, "type") == Some(JStr("trainee"))
  }

  /** `f"{entry.get(k, '')}"`. */
  function Text(e: Json, k: string): string
  {
    ScalarText(Field(e, k).GetOr(JStr("")))
  }

  /** `_legacy_key`: name, attribute and rarity for supports, name and `profile` for trainees, lower-cased. */
  function LegacyKey(e: Json): string
  {
    if IsSupport(e) then Lower(Text(e, "name") + "_" + Text(e, "attribute") + "_" + Text(e, "rarity"))
    else Lower(Text(e, "name") + "_profile")
  }

  /** Entries whose fields differ only in letter case share a legacy key. */
  lemma LegacyKeyIgnoresCase(a: Json, b: Json)
    requires IsSupport(a) == IsSupport(b) && Lower(Text(a, "name")) == Lower(Text(b, "name"))
    requires IsSupport(a) ==> Lower(Text(a, "attribute")) == Lower(Text(b, "attribute")) &&
                              Lower(Text(a, "rarity")) == Lower(Text(b, "rarity"))
    ensures LegacyKey(a) == LegacyKey(b)
  {
    if IsSupport(a) {
      LowerParts(Text(a, "name"), Text(a, "attribute"), Text(a, "rarity"));
      LowerParts(Text(b, "name"), Text(b, "attribute"), Text(b, "rarity"));
    } else {
      LowerConcat(Text(a, "name"), "_profile");
      LowerConcat(Text(b, "name"), "_profile");
    }
  }

  /** Lower-casing `n_a_r` lower-cases each part. */
  lemma LowerParts(n: string, at: string, r: string)
    ensures Lower(n + "_" + at + "_" + r) == Lower(n) + Lower("_") + Lower(at) + Lower("_") + Lower(r)
  {
    LowerConcat(n + "_" + at + "_", r);
    LowerConcat(n + "_" + at, "_");
    LowerConcat(n + "_", at);
    LowerConcat(n, "_");
  }

  lemma LowerConcat(a: string, b: string)
    ensures Lower(a + b) == Lower(a) + Lower(b)
  {
    assert forall i :: 0 <= i < |a + b| ==> (a + b)[i] == if i < |a| then a[i] else b[i - |a|];
  }

  /**
   * `create_entry_key`: `gt_<id>` when the entry has a Gametora id, else its
   * legacy key; lower-case either way.
   */
  function CreateEntryKey(e: Json): (k: string)
    ensures HasId(e) ==> k == "gt_" + Lower(ScalarText(IdOf(e)))
    ensures !HasId(e) ==> k == LegacyKey(e)
    ensures Lower(k) == k
  {
    GtKeyLower(ScalarText(IdOf(e)));
    LegacyKeyLower(e);
    if HasId(e) then Lower("gt_" + ScalarText(IdOf(e))) else LegacyKey(e)
  }

  lemma GtKeyLower(id: string)
    ensures Lower("gt_" + id) == "gt_" + Lower(id) && Lower(Lower("gt_" + id)) == Lower("gt_" + id)
  {
    LowerConcat("gt_", id);
    LowerIdempotent("gt_" + id);
    assert Lower("gt_") == "gt_";
  }

  lemma LegacyKeyLower(e: Json)
    ensures Lower(LegacyKey(e)) == LegacyKey(e)
  {
    if IsSupport(e) {
      LowerIdempotent(Text(e, "name") + "_" + Text(e, "attribute") + "_" + Text(e, "rarity"));
    } else {
      LowerIdempotent(Text(e, "name") + "_profile");
    }
  }

  // ---------------------------------------------------------------------
  // Merge
  // ---------------------------------------------------------------------

  /** The local state of `merge_events`. */
  datatype MergeState = MergeState(lookup: map<string, nat>, legacy: map<string, nat>, replaced: set<nat>,
                                   merged: seq<Json>, added: nat, updated: nat)

  /** The three views of an entry the merge uses: its key, its legacy key and whether it has an id. */
  datatype Keying = Keying(key: Json -> string, legacyKey: Json -> string, hasId: Json -> bool)

  /** The keying of `merge_events`. */
  const EntryKeys := Keying(CreateEntryKey, LegacyKey, HasId)

  /** The first loop: each entry's key mapped to its index, the last index winning. */
  function KeyIndex(existing: seq<Json>, ks: Keying): (m: map<string, nat>)
    ensures forall k :: k in m ==> m[k] < |existing| && ks.key(existing[m[k]]) == k
    ensures forall i :: 0 <= i < |existing| ==> ks.key(existing[i]) in m
  {
    if |existing| == 0 then map[]
    else
      var n := |existing| - 1;
      var prev := KeyIndex(existing[..n], ks);
      assert forall i :: 0 <= i < n ==> existing[..n][i] == existing[i];
      prev[ks.key(existing[n]) := n]
  }

  /** The second loop: the legacy key of each entry without an id mapped to its index, the last index winning. */
  function LegacyIndex(existing: seq<Json>, ks: Keying): (m: map<string, nat>)
    ensures forall k :: k in m ==> m[k] < |existing| && ks.legacyKey(existing[m[k]]) == k && !ks.hasId(existing[m[k]])
    ensures forall i :: 0 <= i < |existing| && !ks.hasId(existing[i]) ==> ks.legacyKey(existing[i]) in m
  {
    if |existing| == 0 then map[]
    else
      var n := |existing| - 1;
      var prev := LegacyIndex(existing[..n], ks);
      assert forall i :: 0 <= i < n ==> existing[..n][i] == existing[i];
      if ks.hasId(existing[n]) then prev else prev[ks.legacyKey(existing[n]) := n]
  }

  /** Every index the lookups hold is a position of the merged list. */
  predicate Indexed(s: MergeState)
  {
    (forall k :: k in s.lookup ==> s.lookup[k] < |s.merged|) &&
    (forall k :: k in s.legacy ==> s.legacy[k] < |s.merged|)
  }

  function Start(existing: seq<Json>, ks: Keying): (s: MergeState)
    ensures Indexed(s)
  {
    MergeState(KeyIndex(existing, ks), LegacyIndex(existing, ks), {}, existing, 0, 0)
  }

  /** One new entry: update by key, else migrate a legacy entry not yet replaced, else append. */
  function MergeStep(s: MergeState, e: Json, ks: Keying): (r: MergeState)
    requires Indexed(s)
    ensures Indexed(r) && r.legacy == s.legacy
  {
    var key := ks.key(e);
    if key in s.lookup then
      s.(merged := s.merged[s.lookup[key] := e], updated := s.updated + 1)
    else
      var lk := ks.legacyKey(e);
      if ks.hasId(e) && lk in s.legacy && s.legacy[lk] !in s.replaced then
        var i := s.legacy[lk];
        s.(merged := s.merged[i := e], replaced := s.replaced + {i}, lookup := s.lookup[key := i], updated := s.updated + 1)
      else
        s.(merged := s.merged + [e], lookup := s.lookup[key := |s.merged|], added := s.added + 1)
  }

  function MergeAll(s: MergeState, news: seq<Json>, ks: Keying): (r: MergeState)
    requires Indexed(s)
    ensures Indexed(r) && r.legacy == s.legacy
  {
    if |news| == 0 then s else MergeStep(MergeAll(s, news[..|news| - 1], ks), news[|news| - 1], ks)
  }

  /** `merge_events`: the merged list and the added and updated counts. */
  function MergeEvents(existing: seq<Json>, news: seq<Json>): (seq<Json>, nat, nat)
  {
    var s := MergeAll(Start(existing, EntryKeys), news, EntryKeys);
    (s.merged, s.added, s.updated)
  }

  /** An existing entry some new entry matches, by key or by legacy key. */
  predicate Touched(news: seq<Json>, e: Json, ks: Keying)
  {
    exists n :: n in news && (ks.key(n) == ks.key(e) || ks.legacyKey(n) == ks.legacyKey(e))
  }

  /** What holds of the merge state after the new entries `done`. */
  predicate MergeInv(existing: seq<Json>, done: seq<Json>, s: MergeState, ks: Keying)
  {
    Indexed(s) && s.legacy == LegacyIndex(existing, ks) &&
    |s.merged| == |existing| + s.added && s.added + s.updated == |done| &&
    (forall i :: i in s.replaced ==> i < |existing|) &&
    (forall i :: 0 <= i < |existing| ==> s.merged[i] == existing[i] || (s.merged[i] in done && Touched(done, existing[i], ks))) &&
    (forall i :: |existing| <= i < |s.merged| ==> s.merged[i] in done) &&
    (forall k :: k in s.lookup && s.lookup[k] < |existing| ==>
       k == ks.key(existing[s.lookup[k]]) || Touched(done, existing[s.lookup[k]], ks))
  }

  lemma TouchedGrows(done: seq<Json>, e: Json, x: Json, ks: Keying)
    requires Touched(done, x, ks)
    ensures Touched(done + [e], x, ks)
  {
    var n :| n in done && (ks.key(n) == ks.key(x) || ks.legacyKey(n) == ks.legacyKey(x));
    assert n in done + [e];
  }

  lemma StepKeepsInv(existing: seq<Json>, done: seq<Json>, s: MergeState, e: Json, ks: Keying)
    requires MergeInv(existing, done, s, ks)
    ensures MergeInv(existing, done + [e], MergeStep(s, e, ks), ks)
  {
    var key := ks.key(e);
    if key in s.lookup {
      UpdateKeepsInv(existing, done, s, e, ks);
    } else if ks.hasId(e) && ks.legacyKey(e) in s.legacy && s.legacy[ks.legacyKey(e)] !in s.replaced {
      MigrateKeepsInv(existing, done, s, e, ks);
    } else {
      AppendKeepsInv(existing, done, s, e, ks);
    }
  }

  lemma DoneGrows(done: seq<Json>, e: Json, ks: Keying)
    ensures e in done + [e] && forall x :: x in done ==> x in done + [e]
    ensures forall x :: Touched(done, x, ks) ==> Touched(done + [e], x, ks)
  {
    forall x | Touched(done, x, ks) ensures Touched(done + [e], x, ks) { TouchedGrows(done, e, x, ks); }
  }

  lemma UpdateKeepsInv(existing: seq<Json>, done: seq<Json>, s: MergeState, e: Json, ks: Keying)
    requires MergeInv(existing, done, s, ks) && ks.key(e) in s.lookup
    ensures MergeInv(existing, done + [e], MergeStep(s, e, ks), ks)
  {
    DoneGrows(done, e, ks);
    var i := s.lookup[ks.key(e)];
    if i < |existing| {
      assert ks.key(e) == ks.key(existing[i]) || Touched(done, existing[i], ks);
      assert Touched(done + [e], existing[i], ks);
    }
  }

  lemma MigrateKeepsInv(existing: seq<Json>, done: seq<Json>, s: MergeState, e: Json, ks: Keying)
    requires MergeInv(existing, done, s, ks) && ks.key(e) !in s.lookup
    requires ks.hasId(e) && ks.legacyKey(e) in s.legacy && s.legacy[ks.legacyKey(e)] !in s.replaced
    ensures MergeInv(existing, done + [e], MergeStep(s, e, ks), ks)
  {
    DoneGrows(done, e, ks);
    var i := s.legacy[ks.legacyKey(e)];
    assert ks.legacyKey(existing[i]) == ks.legacyKey(e);
    assert Touched(done + [e], existing[i], ks);
  }

  lemma AppendKeepsInv(existing: seq<Json>, done: seq<Json>, s: MergeState, e: Json, ks: Keying)
    requires MergeInv(existing, done, s, ks) && ks.key(e) !in s.lookup
    requires !(ks.hasId(e) && ks.legacyKey(e) in s.legacy && s.legacy[ks.legacyKey(e)] !in s.replaced)
    ensures MergeInv(existing, done + [e], MergeStep(s, e, ks), ks)
  {
    DoneGrows(done, e, ks);
  }

  lemma {:induction false} MergeAllInv(existing: seq<Json>, news: seq<Json>, ks: Keying)
    ensures MergeInv(existing, news, MergeAll(Start(existing, ks), news, ks), ks)
    decreases |news|
  {
    if |news| == 0 {
      assert MergeInv(existing, news, Start(existing, ks), ks);
    } else {
      var n := |news| - 1;
      MergeAllInv(existing, news[..n], ks);
      StepKeepsInv(existing, news[..n], MergeAll(Start(existing, ks), news[..n], ks), news[n], ks);
      assert news[..n] + [news[n]] == news;
    }
  }

  /**
   * `merge_events`: every new entry is counted once, as added or updated;
   * the list grows by the added ones; an existing entry no new entry matches
   * keeps its position and value; every other position holds a new entry.
   */
  lemma MergeEventsProps(existing: seq<Json>, news: seq<Json>)
    ensures var (merged, added, updated) := MergeEvents(existing, news);
            added + updated == |news| && |merged| == |existing| + added &&
            (forall i :: 0 <= i < |existing| && !Touched(news, existing[i], EntryKeys) ==> merged[i] == existing[i]) &&
            (forall i :: 0 <= i < |merged| ==> (i < |existing| && merged[i] == existing[i]) || merged[i] in news)
  {
    MergeAllInv(existing, news, EntryKeys);
  }

  /**
   * A legacy entry is migrated at most once: once its index is recorded as
   * replaced, a further new entry with the same legacy key (and a key not
   * seen yet) is appended instead.
   */
  lemma LegacyReplacedOnce(existing: seq<Json>, done: seq<Json>, s: MergeState, e: Json, ks: Keying)
    requires MergeInv(existing, done, s, ks)
    requires ks.key(e) !in s.lookup && ks.legacyKey(e) in s.legacy && s.legacy[ks.legacyKey(e)] in s.replaced
    ensures var r := MergeStep(s, e, ks);
            r.merged == s.merged + [e] && r.added == s.added + 1 && r.replaced == s.replaced &&
            r.merged[s.legacy[ks.legacyKey(e)]] == s.merged[s.legacy[ks.legacyKey(e)]]
  {
  }

  /** A migration replaces the entry at the legacy index and records the index. */
  lemma LegacyMigration(existing: seq<Json>, done: seq<Json>, s: MergeState, e: Json, ks: Keying)
    requires MergeInv(existing, done, s, ks)
    requires ks.key(e) !in s.lookup && ks.hasId(e) && ks.legacyKey(e) in s.legacy && s.legacy[ks.legacyKey(e)] !in s.replaced
    ensures var r := MergeStep(s, e, ks); var i := s.legacy[ks.legacyKey(e)];
            i < |existing| && !ks.hasId(existing[i]) && ks.legacyKey(existing[i]) == ks.legacyKey(e) &&
            r.merged == s.merged[i := e] && r.replaced == s.replaced + {i} && |r.merged| == |s.merged| &&
            r.lookup[ks.key(e)] == i
  {
  }

  /** The first loop of `merge_events`: key to index over the existing entries. */
  method BuildKeyLookup(existing: seq<Json>) returns (lookup: map<string, nat>)
    ensures lookup == KeyIndex(existing, EntryKeys)
  {
    lookup := map[];
    var idx := 0;
    while idx < |existing|
      invariant 0 <= idx <= |existing|
      invariant lookup == KeyIndex(existing[..idx], EntryKeys)
    {
      assert existing[..idx + 1][..idx] == existing[..idx];
      assert EntryKeys.key(existing[idx]) == CreateEntryKey(existing[idx]);
      lookup := lookup[CreateEntryKey(existing[idx]) := idx];
      idx := idx + 1;
    }
    assert existing[..|existing|] == existing;
  }

  /** The second loop of `merge_events`: legacy key to index over the existing entries without an id. */
  method BuildLegacyLookup(existing: seq<Json>) returns (legacyLookup: map<string, nat>)
    ensures legacyLookup == LegacyIndex(existing, EntryKeys)
  {
    legacyLookup := map[];
    var idx := 0;
    while idx < |existing|
      invariant 0 <= idx <= |existing|
      invariant legacyLookup == LegacyIndex(existing[..idx], EntryKeys)
    {
      assert existing[..idx + 1][..idx] == existing[..idx];
      assert EntryKeys.legacyKey(existing[idx]) == LegacyKey(existing[idx]) && EntryKeys.hasId(existing[idx]) == HasId(existing[idx]);
      if !HasId(existing[idx]) {
        legacyLookup := legacyLookup[LegacyKey(existing[idx]) := idx];
      }
      idx := idx + 1;
    }
    assert existing[..|existing|] == existing;
  }

  /** The third loop of `merge_events`: each new entry updated in place, migrated or appended. */
  method MergeNewEntries(existing: seq<Json>, lookup0: map<string, nat>, legacyLookup: map<string, nat>, news: seq<Json>, ks: Keying)
    returns (merged: seq<Json>, added: nat, updated: nat)
    requires Indexed(MergeState(lookup0, legacyLookup, {}, existing, 0, 0))
    ensures var r := MergeAll(MergeState(lookup0, legacyLookup, {}, existing, 0, 0), news, ks);
            merged == r.merged && added == r.added && updated == r.updated
  {
    ghost var start := MergeState(lookup0, legacyLookup, {}, existing, 0, 0);
    var lookup: map<string, nat> := lookup0;
    var replaced: set<nat> := {};
    merged, added, updated := existing, 0, 0;
    var j := 0;
    while j < |news|
      invariant 0 <= j <= |news|
      invariant MergeState(lookup, legacyLookup, replaced, merged, added, updated) == MergeAll(start, news[..j], ks)
    {
      assert news[..j + 1][..j] == news[..j];
      lookup, replaced, merged, added, updated := MergeOne(lookup, legacyLookup, replaced, merged, added, updated, news[j], ks);
      j := j + 1;
    }
    assert news[..|news|] == news;
  }

  /** One new entry of the third loop. */
  method MergeOne(lookup0: map<string, nat>, legacyLookup: map<string, nat>, replaced0: set<nat>, merged0: seq<Json>,
                  added0: nat, updated0: nat, e: Json, ks: Keying)
    returns (lookup: map<string, nat>, replaced: set<nat>, merged: seq<Json>, added: nat, updated: nat)
    requires Indexed(MergeState(lookup0, legacyLookup, replaced0, merged0, added0, updated0))
    ensures MergeState(lookup, legacyLookup, replaced, merged, added, updated) ==
            MergeStep(MergeState(lookup0, legacyLookup, replaced0, merged0, added0, updated0), e, ks)
  {
    lookup, replaced, merged, added, updated := lookup0, replaced0, merged0, added0, updated0;
    var key := ks.key(e);
    if key in lookup {
      merged := merged[lookup[key] := e];
      updated := updated + 1;
    } else {
      var lk := ks.legacyKey(e);
      if ks.hasId(e) && lk in legacyLookup && legacyLookup[lk] !in replaced {
        var i := legacyLookup[lk];
        merged := merged[i := e];
        replaced := replaced + {i};
        lookup := lookup[key := i];
        updated := updated + 1;
      } else {
        merged := merged + [e];
        lookup := lookup[key := |merged| - 1];
        added := added + 1;
      }
    }
  }

  /** `merge_events`: the two lookup loops, then the loop over the new entries. */
  method MergeEventsLoop(existing: seq<Json>, news: seq<Json>) returns (merged: seq<Json>, added: nat, updated: nat)
    ensures (merged, added, updated) == MergeEvents(existing, news)
  {
    var lookup := BuildKeyLookup(existing);
    var legacyLookup := BuildLegacyLookup(existing);
    assert Start(existing, EntryKeys) == MergeState(lookup, legacyLookup, {}, existing, 0, 0);
    merged, added, updated := MergeNewEntries(existing, lookup, legacyLookup, news, EntryKeys);
  }

  // ---------------------------------------------------------------------
  // Export order
  // ---------------------------------------------------------------------

  /** Field `k` is a string or absent, as `e.get(k, "").lower()` needs. */
  predicate TextField(e: Json, k: string)
  {
    Field(e, k).None? || Field(e, k).value.JStr?
  }

  /** The name, rarity and attribute fields are strings or absent. */
  predicate TextFields(e: Json)
  {
    TextField(e, "name") && TextField(e, "rarity") && TextField(e, "attribute")
  }

  /** `entry.get(k, "")` for a text field. */
  function StrOf(e: Json, k: string): string
  {
    match Field(e, k)
    case Some(JStr(s)) => s
    case _ => ""
  }

  /** The sort key: supports first, then name, rarity and attribute, lower-cased. */
  function SortKey(e: Json): (int, string, string, string)
  {
    (if IsSupport(e) then 0 else 1, Lower(StrOf(e, "name")), Lower(StrOf(e, "rarity")), Lower(StrOf(e, "attribute")))
  }

  /** Python's tuple `<=` on sort keys. */
  predicate KeyLe(x: (int, string, string, string), y: (int, string, string, string))
  {
    x.0 < y.0 || (x.0 == y.0 &&
      ((StrLe(x.1, y.1) && x.1 != y.1) || (x.1 == y.1 &&
        ((StrLe(x.2, y.2) && x.2 != y.2) || (x.2 == y.2 && StrLe(x.3, y.3))))))
  }

  predicate EntryLe(a: Json, b: Json)
  {
    KeyLe(SortKey(a), SortKey(b))
  }

  lemma KeyLeTotal(x: (int, string, string, string), y: (int, string, string, string))
    ensures KeyLe(x, y) || KeyLe(y, x)
  {
    StrLeTotal(x.1, y.1);
    StrLeTotal(x.2, y.2);
    StrLeTotal(x.3, y.3);
  }

  lemma KeyLeTransitive(x: (int, string, string, string), y: (int, string, string, string), z: (int, string, string, string))
    requires KeyLe(x, y) && KeyLe(y, z)
    ensures KeyLe(x, z)
  {
    if x.0 == y.0 == z.0 {
      if StrLe(x.1, y.1) && StrLe(y.1, z.1) {
        StrLeTransitive(x.1, y.1, z.1);
        if x.1 == z.1 && x.1 != y.1 { StrLeAntisymmetric(x.1, y.1); }
      }
      if x.1 == y.1 == z.1 {
        if StrLe(x.2, y.2) && StrLe(y.2, z.2) {
          StrLeTransitive(x.2, y.2, z.2);
          if x.2 == z.2 && x.2 != y.2 { StrLeAntisymmetric(x.2, y.2); }
        }
        if x.2 == y.2 == z.2 {
          StrLeTransitive(x.3, y.3, z.3);
        }
      }
    }
  }

  lemma EntryLePreorder()
    ensures TotalPreorder(EntryLe)
  {
    forall a, b ensures EntryLe(a, b) || EntryLe(b, a) {
      KeyLeTotal(SortKey(a), SortKey(b));
    }
    forall a, b, c | EntryLe(a, b) && EntryLe(b, c) ensures EntryLe(a, c) {
      KeyLeTransitive(SortKey(a), SortKey(b), SortKey(c));
    }
  }

  /** `sort_events`. */
  function SortEvents(events: seq<Json>): seq<Json>
    requires forall i :: 0 <= i < |events| ==> TextFields(events[i])
  {
    SortBy(events, EntryLe)
  }

  /** `sort_events` returns a permutation in key order, all supports ahead of all trainees. */
  lemma SortEventsProps(events: seq<Json>)
    requires forall i :: 0 <= i < |events| ==> TextFields(events[i])
    ensures var r := SortEvents(events);
            multiset(r) == multiset(events) && SortedBy(r, EntryLe) &&
            forall i, j :: 0 <= i < j < |r| && IsSupport(r[j]) ==> IsSupport(r[i])
  {
    EntryLePreorder();
    SortBySorted(events, EntryLe);
    var r := SortEvents(events);
    forall i, j | 0 <= i < j < |r| && IsSupport(r[j]) ensures IsSupport(r[i]) {
      assert EntryLe(r[i], r[j]);
    }
  }

  // ---------------------------------------------------------------------
  // Slugs
  // ---------------------------------------------------------------------

  /** `re.sub(r'^\d+-', '', slug)`. */
  function StripIdPrefix(slug: string): (r: string)
    ensures |r| <= |slug| && r == slug[|slug| - |r|..]
  {
    var n := DigitRun(slug);
    if n > 0 && n < |slug| && slug[n] == '-' then slug[n + 1..] else slug
  }

  /** `slug_to_name`: the id prefix dropped, hyphens made spaces, then title-cased. */
  function SlugToName(slug: string): string
  {
    Title(Replace(StripIdPrefix(slug), "-", " "))
  }

  /**
   * `slug_to_name` keeps the text after the id, turns every hyphen into a
   * space and capitalises each word: a letter is upper case exactly when it
   * starts a word.
   */
  lemma SlugToNameProps(slug: string)
    ensures var rest := StripIdPrefix(slug); var r := SlugToName(slug);
            |r| == |rest| && !HasChar(r, '-') &&
            forall i :: 0 <= i < |r| ==>
              r[i] == TitleCharAt(ReplaceChar(rest, '-', ' '), i) &&
              (IsLetter(rest[i]) ==> r[i] == if i == 0 || !IsLetter(rest[i - 1]) then UpperChar(rest[i]) else LowerChar(rest[i]))
  {
    var rest := StripIdPrefix(slug);
    ReplaceOneChar(rest, '-', ' ');
    var spaced := ReplaceChar(rest, '-', ' ');
    var r := SlugToName(slug);
    assert r == Title(spaced);
    forall i | 0 <= i < |r|
      ensures r[i] != '-'
      ensures IsLetter(rest[i]) ==> r[i] == if i == 0 || !IsLetter(rest[i - 1]) then UpperChar(rest[i]) else LowerChar(rest[i])
    {
      assert spaced[i] != '-';
      assert r[i] == TitleCharAt(spaced, i);
      if IsLetter(rest[i]) {
        assert spaced[i] == rest[i];
        if i > 0 {
          assert IsLetter(spaced[i - 1]) <==> IsLetter(rest[i - 1]);
        }
      }
    }
  }

  /** A leading numeric id and its hyphen are dropped; nothing else is. */
  lemma StripIdPrefixOf(id: string, rest: string)
    requires |id| > 0 && AllDigits(id)
    ensures StripIdPrefix(id + "-" + rest) == rest
  {
    var s := id + "-" + rest;
    assert s[|id|] == '-' && !IsDigit(s[|id|]);
    assert forall i :: 0 <= i < |id| ==> s[i] == id[i];
    assert DigitRun(s) == |id|;
    assert s[|id| + 1..] == rest;
  }

  // ---------------------------------------------------------------------
  // Existing names
  // ---------------------------------------------------------------------

  /** `e.get("name", "").lower().strip()`. */
  function NormName(e: Json): string
  {
    Strip(Lower(StrOf(e, "name")))
  }

  /** Index of the last `c` in `s`, or -1. */
  function FindLast(s: string, c: char): (i: int)
    ensures -1 <= i < |s|
    ensures i >= 0 ==> s[i] == c
    ensures forall k :: i < k < |s| ==> s[k] != c
  {
    if |s| == 0 then -1 else if s[|s| - 1] == c then |s| - 1 else FindLast(s[..|s| - 1], c)
  }

  /**
   * Where `\s*\([^)]+\)\s*$` matches: trailing blanks, then the last `)`,
   * with the first `(` after the `)` before it and something in between,
   * and the blanks before that `(`.
   */
  function VersionSuffixStart(s: string): (r: Option<nat>)
    ensures r.Some? ==> r.value < |s|
  {
    var t := RStrip(s);
    if |t| == 0 || t[|t| - 1] != ')' then None else GroupStart(t[..|t| - 1])
  }

  /**
   * The text before the final `)`: the group opens at the first `(` after
   * the previous `)` with something after it, and the match takes the
   * blanks before that `(` too.
   */
  function GroupStart(body: string): (r: Option<nat>)
    ensures r.Some? ==> r.value < |body|
  {
    var start := FindLast(body, ')') + 1;
    var f := Find(body[start..], '(');
    if start + f + 1 < |body| then
      var q := start + f;
      Some(q - TrailingSpaces(body[..q]))
    else None
  }

  /** `re.sub(r'\s*\([^)]+\)\s*$', '', name)`: a trailing parenthesised version removed. */
  function BaseName(s: string): (r: string)
    ensures StartsWith(s, r)
  {
    match VersionSuffixStart(s)
    case None => s
    case Some(p) => s[..p]
  }

  /** A name followed by a parenthesised version loses exactly the version and the blank before it. */
  lemma BaseNameOfVersioned(n: string, v: string)
    requires !HasChar(n, '(') && !HasChar(n, ')') && !HasChar(v, ')') && |v| > 0
    requires |n| == 0 || !IsSpace(n[|n| - 1])
    ensures BaseName(n + " (" + v + ")") == n
  {
    var s := n + " (" + v + ")";
    VersionSuffixOfVersioned(n, v);
    assert s[..|n|] == n;
  }

  /** The suffix match of a versioned name starts at the blank before the `(`. */
  lemma VersionSuffixOfVersioned(n: string, v: string)
    requires !HasChar(n, '(') && !HasChar(n, ')') && !HasChar(v, ')') && |v| > 0
    requires |n| == 0 || !IsSpace(n[|n| - 1])
    ensures VersionSuffixStart(n + " (" + v + ")") == Some(|n|)
  {
    var body := n + " (" + v;
    assert n + " (" + v + ")" == body + ")";
    ClosedGroup(body);
    GroupOfVersioned(n, v);
  }

  /** Text ending in `)` is matched through the group before that `)`. */
  lemma ClosedGroup(body: string)
    ensures VersionSuffixStart(body + ")") == GroupStart(body)
  {
    var s := body + ")";
    assert s[|s| - 1] == ')' && !IsSpace(')');
    assert TrailingSpaces(s) == 0;
    assert RStrip(s) == s;
    assert s[..|s| - 1] == body;
  }

  lemma GroupOfVersioned(n: string, v: string)
    requires !HasChar(n, '(') && !HasChar(n, ')') && !HasChar(v, ')') && |v| > 0
    requires |n| == 0 || !IsSpace(n[|n| - 1])
    ensures GroupStart(n + " (" + v) == Some(|n|)
  {
    var body := n + " (" + v;
    NoCloseBeforeVersion(n, v);
    assert body[0..] == body;
    OpenBeforeVersion(n, v);
    assert body[..|n| + 1] == n + " ";
    OneTrailingSpace(n);
  }

  lemma NoCloseBeforeVersion(n: string, v: string)
    requires !HasChar(n, ')') && !HasChar(v, ')')
    ensures FindLast(n + " (" + v, ')') == -1
  {
    var body := n + " (" + v;
    assert forall i :: 0 <= i < |n| ==> body[i] == n[i];
    assert forall i :: |n| + 2 <= i < |body| ==> body[i] == v[i - |n| - 2];
  }

  lemma OpenBeforeVersion(n: string, v: string)
    requires !HasChar(n, '(')
    ensures Find(n + " (" + v, '(') == |n| + 1
  {
    var body := n + " (" + v;
    assert body[|n| + 1] == '(';
    assert forall i :: 0 <= i < |n| ==> body[i] == n[i];
  }

  lemma OneTrailingSpace(n: string)
    requires |n| == 0 || !IsSpace(n[|n| - 1])
    ensures TrailingSpaces(n + " ") == 1
  {
    assert (n + " ")[..|n|] == n;
  }

  /** The names a list of entries contributes, entry by entry. */
  function Collect(es: seq<Json>, names: Json -> set<string>): set<string>
  {
    if |es| == 0 then {} else Collect(es[..|es| - 1], names) + names(es[|es| - 1])
  }

  lemma CollectStep(es: seq<Json>, names: Json -> set<string>, i: nat)
    requires i < |es|
    ensures Collect(es[..i + 1], names) == Collect(es[..i], names) + names(es[i])
  {
    assert es[..i + 1][..i] == es[..i];
  }

  lemma {:induction false} CollectMembers(es: seq<Json>, names: Json -> set<string>, x: string)
    ensures x in Collect(es, names) <==> exists i :: 0 <= i < |es| && x in names(es[i])
    decreases |es|
  {
    if |es| > 0 {
      var n := |es| - 1;
      CollectMembers(es[..n], names, x);
      if exists i :: 0 <= i < |es| && x in names(es[i]) {
        var i :| 0 <= i < |es| && x in names(es[i]);
        if i < n { assert es[..n][i] == es[i]; }
      }
      if exists i :: 0 <= i < n && x in names(es[..n][i]) {
        var i :| 0 <= i < n && x in names(es[..n][i]);
        assert es[..n][i] == es[i];
      }
    }
  }

  /** The name one support entry contributes, blanks skipped. */
  function SupportName(e: Json): set<string>
  {
    if IsSupport(e) && NormName(e) != "" then {NormName(e)} else {}
  }

  /** `support_names`. */
  function SupportNames(es: seq<Json>): set<string>
  {
    Collect(es, SupportName)
  }

  /** The names one trainee entry contributes: its normalised name and its base name, blanks skipped. */
  function TraineeNames(e: Json): set<string>
  {
    var name := NormName(e);
    var base := Strip(BaseName(name));
    if !IsTrainee(e) || name == "" then {} else {name} + (if base != "" then {base} else {})
  }

  /** `char_names`. */
  function CharNames(es: seq<Json>): set<string>
  {
    Collect(es, TraineeNames)
  }

  /** A support name is exactly the non-blank normalised name of some support entry. */
  lemma SupportNamesMembers(es: seq<Json>, x: string)
    ensures x in SupportNames(es) <==> x != "" && exists i :: 0 <= i < |es| && IsSupport(es[i]) && NormName(es[i]) == x
  {
    CollectMembers(es, SupportName, x);
  }

  /** A character name comes from a trainee entry: its normalised name or that name without its version. */
  lemma CharNamesMembers(es: seq<Json>, x: string)
    ensures x in CharNames(es) <==>
            x != "" && exists i :: 0 <= i < |es| && IsTrainee(es[i]) && NormName(es[i]) != "" &&
                                   (x == NormName(es[i]) || x == Strip(BaseName(NormName(es[i]))))
  {
    CollectMembers(es, TraineeNames, x);
    forall i | 0 <= i < |es|
      ensures x in TraineeNames(es[i]) <==>
              x != "" && IsTrainee(es[i]) && NormName(es[i]) != "" &&
              (x == NormName(es[i]) || x == Strip(BaseName(NormName(es[i]))))
    {
      TraineeNamesMember(es[i], x);
    }
  }

  lemma TraineeNamesMember(e: Json, x: string)
    ensures x in TraineeNames(e) <==>
            x != "" && IsTrainee(e) && NormName(e) != "" && (x == NormName(e) || x == Strip(BaseName(NormName(e))))
  {
    var name := NormName(e);
    var base := Strip(BaseName(name));
    assert TraineeNames(e) == if !IsTrainee(e) || name == "" then {} else {name} + (if base != "" then {base} else {});
    NamePairMember(name, base, x);
  }

  lemma NamePairMember(name: string, base: string, x: string)
    ensures x in {name} + (if base != "" then {base} else {}) <==> x == name || (base != "" && x == base)
  {
  }

  /** The first loop of `get_existing_names`: the support names. */
  method CollectSupportNames(existing: seq<Json>) returns (supportNames: set<string>)
    requires forall i :: 0 <= i < |existing| && IsSupport(existing[i]) ==> TextField(existing[i], "name")
    ensures supportNames == SupportNames(existing)
  {
    supportNames := {};
    var i := 0;
    while i < |existing|
      invariant 0 <= i <= |existing|
      invariant supportNames == Collect(existing[..i], SupportName)
    {
      CollectStep(existing, SupportName, i);
      var e := existing[i];
      if IsSupport(e) {
        var name := NormName(e);
        if name != "" {
          supportNames := supportNames + {name};
        }
      }
      i := i + 1;
    }
    assert existing[..|existing|] == existing;
  }

  /** The second loop of `get_existing_names`: each trainee's name and its base name. */
  method CollectCharNames(existing: seq<Json>) returns (charNames: set<string>)
    requires forall i :: 0 <= i < |existing| && IsTrainee(existing[i]) ==> TextField(existing[i], "name")
    ensures charNames == CharNames(existing)
  {
    charNames := {};
    var i := 0;
    while i < |existing|
      invariant 0 <= i <= |existing|
      invariant charNames == Collect(existing[..i], TraineeNames)
    {
      CollectStep(existing, TraineeNames, i);
      charNames := AddTraineeNames(charNames, existing[i]);
      i := i + 1;
    }
    assert existing[..|existing|] == existing;
  }

  /** One trainee entry of the second loop. */
  method AddTraineeNames(names: set<string>, e: Json) returns (r: set<string>)
    requires IsTrainee(e) ==> TextField(e, "name")
    ensures r == names + TraineeNames(e)
  {
    r := names;
    if IsTrainee(e) {
      var name := NormName(e);
      if name != "" {
        r := r + {name};
        var base := Strip(BaseName(name));
        if base != "" {
          r := r + {base};
        }
      }
    }
  }

  /** `get_existing_names` on the loaded entries. */
  method GetExistingNames(existing: seq<Json>) returns (supportNames: set<string>, charNames: set<string>)
    requires forall i :: 0 <= i < |existing| && (IsSupport(existing[i]) || IsTrainee(existing[i])) ==> TextField(existing[i], "name")
    ensures supportNames == SupportNames(existing) && charNames == CharNames(existing)
  {
    supportNames := CollectSupportNames(existing);
    charNames := CollectCharNames(existing);
  }
}
