/**
 * The skills scraper: the grade symbol read off a skill name, the JSON-mode
 * rarity and colour mapping, absolute icon URLs, the HTML-mode colour class
 * and the merge of the two skill lists keyed by id or name.
 */
module ScrapeSkills {
  import opened Wrappers
  import opened Strings
  import opened JsonValues
  import Dicts
  import Sorting

  const BaseUrl := "https://gametora.com"
  const IconBaseUrl := BaseUrl + "/images/umamusume/skill_icons/"

  // ---------------------------------------------------------------------
  // Grade symbols
  // ---------------------------------------------------------------------

  const DoubleCircle := "◎"
  const Circle := "○"

  /** `grade_symbol_from_name`: the circle symbol the stripped name ends with, `◎` tried first. */
  function GradeSymbolFromName(name: string): (r: Option<string>)
    ensures r.Some? ==> (r.value == DoubleCircle || r.value == Circle) && EndsWith(Strip(name), r.value)
    ensures r.None? <==> !EndsWith(Strip(name), DoubleCircle) && !EndsWith(Strip(name), Circle)
  {
    var n := Strip(name);
    if EndsWith(n, DoubleCircle) then Some(DoubleCircle)
    else if EndsWith(n, Circle) then Some(Circle)
    else None
  }

  /** A name ending in a circle symbol, whatever blanks follow, reports that symbol. */
  lemma GradeSymbolOfSuffixed(base: string, sym: string, trail: string)
    requires sym == DoubleCircle || sym == Circle
    requires forall i :: 0 <= i < |trail| ==> IsSpace(trail[i])
    ensures GradeSymbolFromName(base + sym + trail) == Some(sym)
  {
    var s := base + sym + trail;
    var l := LeadingSpaces(s);
    assert s[|base|] == sym[0] && !IsSpace(sym[0]);
    assert l <= |base| by {
      LeadingSpacesAreSpace(s);
      assert forall i :: 0 <= i < l ==> s[..l][i] == s[i];
    }
    var u := base[l..] + sym;
    assert LStrip(s) == u + trail;
    TrailingAllSpaces(u, trail);
    assert RStrip(u + trail) == u;
    assert u[|u| - |sym|..] == sym;
  }

  lemma {:induction false} TrailingAllSpaces(s: string, trail: string)
    requires |s| > 0 && !IsSpace(s[|s| - 1])
    requires forall i :: 0 <= i < |trail| ==> IsSpace(trail[i])
    ensures TrailingSpaces(s + trail) == |trail|
    decreases |trail|
  {
    if |trail| == 0 {
      assert s + trail == s;
    } else {
      var t := trail[..|trail| - 1];
      assert (s + trail)[..|s + trail| - 1] == s + t;
      TrailingAllSpaces(s, t);
    }
  }

  // ---------------------------------------------------------------------
  // JSON mode: rarity and colour
  // ---------------------------------------------------------------------

  const Normal := ("normal", "dnlGQR")
  const Gold := ("gold", "geDDHx")
  const Unique := ("unique", "bhlwbP")
  const Inherited := ("inherited", "dnlGQR")

  /** `RARITY_MAP_JSON` membership and value: Python compares `True` and `1.0` equal to `1`. */
  function RarityEntry(code: Json): (r: Option<(string, string)>)
    requires !code.JList? && !code.JObj?
  {
    match code
    case JInt(i) => if i == 1 then Some(Normal) else if i == 2 then Some(Gold) else if i == 3 then Some(Unique) else None
    case JBool(b) => if b then Some(Normal) else None
    case JFloat(x) => if x == 1.0 then Some(Normal) else if x == 2.0 then Some(Gold) else if x == 3.0 then Some(Unique) else None
    case JStr(s) => if s == "inherited" then Some(Inherited) else None
    case _ => None
  }

  /** A value Python can compare with an int. */
  predicate Numeric(j: Json)
  {
    j.JInt? || j.JBool? || j.JFloat?
  }

  /** `skill_id >= 900000`. */
  predicate AtLeast(j: Json, n: int)
    requires Numeric(j)
  {
    match j
    case JInt(i) => i >= n
    case JBool(b) => (if b then 1 else 0) >= n
    case JFloat(x) => x >= n as real
  }

  /** The rarity and colour class of a JSON row: by rarity code, else inherited for high ids, else normal. */
  function RarityFor(code: Json, id: Json): (rc: (string, string))
    requires !code.JList? && !code.JObj?
    requires RarityEntry(code).None? ==> Numeric(id)
  {
    match RarityEntry(code)
    case Some(e) => e
    case None => if AtLeast(id, 900000) then Inherited else Normal
  }

  /** `RARITY_BY_COLOR_CLASS_HTML.get(c, "normal")`. */
  function HtmlRarity(colorClass: string): string
  {
    if colorClass == "geDDHx" then "gold" else if colorClass == "bhlwbP" then "unique" else "normal"
  }

  /**
   * The two maps agree: the HTML rarity of a JSON row's colour class is its
   * JSON rarity, except that inherited skills share the normal colour.
   */
  lemma RarityColourAgree(code: Json, id: Json)
    requires !code.JList? && !code.JObj?
    requires RarityEntry(code).None? ==> Numeric(id)
    ensures var (rarity, colour) := RarityFor(code, id);
            rarity in {"normal", "gold", "unique", "inherited"} &&
            HtmlRarity(colour) == (if rarity == "inherited" then "normal" else rarity)
  {
  }

  /** Rarity codes 1, 2 and 3 and the high-id fallback, as `fetch_json_skills` maps them. */
  lemma RarityCodes(code: Json, id: Json)
    requires !code.JList? && !code.JObj?
    requires RarityEntry(code).None? ==> Numeric(id)
    ensures code == JInt(1) ==> RarityFor(code, id).0 == "normal"
    ensures code == JInt(2) ==> RarityFor(code, id).0 == "gold"
    ensures code == JInt(3) ==> RarityFor(code, id).0 == "unique"
    ensures code.JNull? ==> RarityFor(code, id).0 == (if AtLeast(id, 900000) then "inherited" else "normal")
  {
  }

  // ---------------------------------------------------------------------
  // Skill records
  // ---------------------------------------------------------------------

  /** One output record; `id` is the raw id, `JNull` in HTML mode. */
  datatype Skill = Skill(id: Json, iconFilename: Option<string>, iconSrc: Option<string>, name: string,
                         description: Json, colorClass: string, rarity: string, gradeSymbol: Option<string>)

  /** `sk.get(k) or ""` on a raw row. */
  function OrEmpty(sk: Json, k: string): Json
  {
    match Field(sk, k)
    case Some(v) => if Truthy(v) then v else JStr("")
    case None => JStr("")
  }

  /** The rows `fetch_json_skills` keeps: id and icon present, name and description non-empty. */
  predicate Complete(sk: Json)
  {
    var id := Field(sk, "id").GetOr(JNull);
    !id.JNull? && Truthy(OrEmpty(sk, "name_en")) && Truthy(OrEmpty(sk, "desc_en")) &&
    !Field(sk, "iconid").GetOr(JNull).JNull?
  }

  /** What the loop body needs of a row to run without raising. */
  predicate RowOk(sk: Json)
  {
    sk.JObj? &&
    (Complete(sk) ==>
      var code := Field(sk, "rarity").GetOr(JNull);
      OrEmpty(sk, "name_en").JStr? && !code.JList? && !code.JObj? &&
      (RarityEntry(code).None? ==> Numeric(Field(sk, "id").GetOr(JNull))))
  }

  /** The record one JSON row yields, if it is kept. */
  function SkillOfRow(sk: Json): (r: Option<Skill>)
    requires RowOk(sk)
    ensures r.Some? <==> Complete(sk)
    ensures r.Some? ==> r.value.name != "" && r.value.gradeSymbol == GradeSymbolFromName(r.value.name) &&
                        r.value.iconFilename.Some? && r.value.iconSrc == Some(IconBaseUrl + r.value.iconFilename.value) &&
                        r.value.rarity in {"normal", "gold", "unique", "inherited"}
  {
    if !Complete(sk) then None
    else
      var id := Field(sk, "id").GetOr(JNull);
      var name := OrEmpty(sk, "name_en").s;
      var code := Field(sk, "rarity").GetOr(JNull);
      var (rarity, colour) := RarityFor(code, id);
      RarityColourAgree(code, id);
      var file := "utx_ico_skill_" + ScalarText(Field(sk, "iconid").GetOr(JNull)) + ".png";
      Some(Skill(id, Some(file), Some(IconBaseUrl + file), name, OrEmpty(sk, "desc_en"), colour, rarity,
                 GradeSymbolFromName(name)))
  }

  /** The records of all kept rows, in row order. */
  function JsonSkills(raw: seq<Json>): seq<Skill>
    requires forall i :: 0 <= i < |raw| ==> RowOk(raw[i])
  {
    Sorting.FilterMap(raw, SkillOfRow)
  }

  /** `fetch_json_skills` keeps at most one record per row. */
  lemma JsonSkillsLength(raw: seq<Json>)
    requires forall i :: 0 <= i < |raw| ==> RowOk(raw[i])
    ensures |JsonSkills(raw)| <= |raw|
  {
    Sorting.FilterMapLength(raw, SkillOfRow);
  }

  /** Every complete row yields a record of `fetch_json_skills`. */
  lemma JsonSkillsKeep(raw: seq<Json>)
    requires forall i :: 0 <= i < |raw| ==> RowOk(raw[i])
    ensures forall i :: 0 <= i < |raw| && Complete(raw[i]) ==> SkillOfRow(raw[i]).value in JsonSkills(raw)
  {
    Sorting.FilterMapKeep(raw, SkillOfRow);
  }

  /** Every record of `fetch_json_skills` comes from a row. */
  lemma JsonSkillsFromRows(raw: seq<Json>)
    requires forall i :: 0 <= i < |raw| ==> RowOk(raw[i])
    ensures forall s :: s in JsonSkills(raw) ==> exists i :: 0 <= i < |raw| && SkillOfRow(raw[i]) == Some(s)
  {
    Sorting.FilterMapFrom(raw, SkillOfRow);
  }

  /** The loop of `fetch_json_skills` over the decoded rows. */
  method FetchJsonSkills(raw: seq<Json>) returns (skills: seq<Skill>)
    requires forall i :: 0 <= i < |raw| ==> RowOk(raw[i])
    ensures skills == JsonSkills(raw)
  {
    skills := [];
    var i := 0;
    while i < |raw|
      invariant 0 <= i <= |raw|
      invariant skills == JsonSkills(raw[..i])
    {
      assert raw[..i + 1][..i] == raw[..i];
      assert forall k :: 0 <= k < i ==> raw[..i + 1][k] == raw[k];
      var sk := raw[i];
      var row := SkillOfRow(sk);
      if row.Some? {
        skills := skills + [row.value];
      }
      i := i + 1;
    }
    assert raw[..|raw|] == raw;
  }

  // ---------------------------------------------------------------------
  // HTML mode helpers
  // ---------------------------------------------------------------------

  /** `_absolute_url`: none for a missing or empty path, absolute URLs kept, others joined to the site. */
  function AbsoluteUrl(rel: Option<string>): (r: Option<string>)
    ensures r.None? <==> rel.None? || rel.value == ""
    ensures r.Some? && (StartsWith(rel.value, "http://") || StartsWith(rel.value, "https://")) ==> r == rel
  {
    match rel
    case None => None
    case Some(p) =>
      if p == "" then None
      else if StartsWith(p, "http://") || StartsWith(p, "https://") then rel
      else Some(BaseUrl + "/" + LStripChars(p, {'/'}))
  }

  /** A relative path is joined with exactly one slash whatever slashes it starts with. */
  lemma AbsoluteUrlJoin(p: string, slashes: nat)
    requires |p| > 0 && p[0] != '/'
    requires !StartsWith(p, "http://") && !StartsWith(p, "https://")
    ensures AbsoluteUrl(Some(Repeat('/', slashes) + p)) == Some(BaseUrl + "/" + p)
  {
    var s := Repeat('/', slashes) + p;
    if slashes > 0 {
      assert s[0] == '/';
    } else {
      assert s == p;
    }
    StripSlashes(slashes, p);
  }

  /** A joined URL is absolute, so joining it again leaves it as it is. */
  lemma AbsoluteUrlIdempotent(rel: Option<string>)
    ensures AbsoluteUrl(AbsoluteUrl(rel)) == AbsoluteUrl(rel)
  {
    match rel
    case None =>
    case Some(p) =>
      if p != "" && !StartsWith(p, "http://") && !StartsWith(p, "https://") {
        assert BaseUrl[..8] == "https://";
        StartsWithConcat(BaseUrl, "/", "https://");
        StartsWithConcat(BaseUrl + "/", LStripChars(p, {'/'}), "https://");
      }
  }

  function Repeat(c: char, n: nat): (r: string)
    ensures |r| == n && forall i :: 0 <= i < n ==> r[i] == c
  {
    seq(n, _ => c)
  }

  lemma {:induction false} StripSlashes(n: nat, p: string)
    requires |p| > 0 && p[0] != '/'
    ensures LStripChars(Repeat('/', n) + p, {'/'}) == p
    decreases n
  {
    if n == 0 {
      assert Repeat('/', n) + p == p;
    } else {
      assert (Repeat('/', n) + p)[1..] == Repeat('/', n - 1) + p;
      StripSlashes(n - 1, p);
    }
  }

  const JpNamePrefix := "skills_table_jpname__"
  const StyledPrefix := "sc-"

  /** A class `_find_color_class_from_namediv` skips. */
  predicate Skipped(c: string)
  {
    StartsWith(c, JpNamePrefix) || StartsWith(c, StyledPrefix)
  }

  /** The first class that is not skipped. */
  function FirstColorClass(classes: seq<string>): (r: Option<nat>)
    ensures r.Some? ==> r.value < |classes| && !Skipped(classes[r.value]) &&
                        forall j :: 0 <= j < r.value ==> Skipped(classes[j])
    ensures r.None? ==> forall j :: 0 <= j < |classes| ==> Skipped(classes[j])
    decreases |classes|
  {
    if |classes| == 0 then None
    else if !Skipped(classes[0]) then Some(0)
    else
      match FirstColorClass(classes[1..])
      case Some(k) => Some(k + 1)
      case None => None
  }

  /** `_find_color_class_from_namediv` on the name cell's class list: the colour class and its rarity. */
  method FindColorClass(classes: seq<string>) returns (colorClass: string, rarity: string)
    ensures colorClass == (match FirstColorClass(classes) case Some(k) => classes[k] case None => "")
    ensures rarity == HtmlRarity(colorClass)
    ensures rarity in {"normal", "gold", "unique"}
  {
    var colorCls: Option<string> := None;
    var i := 0;
    while i < |classes|
      invariant 0 <= i <= |classes|
      invariant colorCls.None? ==> forall j :: 0 <= j < i ==> Skipped(classes[j])
      invariant colorCls.Some? ==> 1 <= i && colorCls.value == classes[i - 1] && FirstColorClass(classes) == Some(i - 1)
    {
      var c := classes[i];
      if StartsWith(c, JpNamePrefix) {
        i := i + 1;
        continue;
      }
      if StartsWith(c, StyledPrefix) {
        i := i + 1;
        continue;
      }
      colorCls := Some(c);
      i := i + 1;
      break;
    }
    colorClass := if colorCls.Some? then colorCls.value else "";
    rarity := HtmlRarity(colorClass);
  }

  // ---------------------------------------------------------------------
  // Merge and dedupe
  // ---------------------------------------------------------------------

  /** The merge key: the id when present, else the stripped lower-case name. */
  function SkillKey(sk: Skill): string
  {
    if !sk.id.JNull? then "id:" + ScalarText(sk.id) else "name:" + Lower(Strip(sk.name))
  }

  /** `put`: store under the record's key unless the key is present and the existing record is preferred. */
  function Put(d: Dicts.Dict<string, Skill>, sk: Skill, preferExisting: bool): Dicts.Dict<string, Skill>
  {
    var key := SkillKey(sk);
    if Dicts.HasKey(d, key) && preferExisting then d else Dicts.Assign(d, key, sk)
  }

  /** `put(sk, prefer_existing=False)` for each record in turn. */
  function PutAll(d: Dicts.Dict<string, Skill>, s: seq<Skill>): Dicts.Dict<string, Skill>
  {
    if |s| == 0 then d else Put(PutAll(d, s[..|s| - 1]), s[|s| - 1], false)
  }

  function Values(d: Dicts.Dict<string, Skill>): (r: seq<Skill>)
    ensures |r| == |d| && forall i :: 0 <= i < |d| ==> r[i] == d[i].1
  {
    seq(|d|, i requires 0 <= i < |d| => d[i].1)
  }

  /** `merge_and_dedupe`: the HTML records first, then the JSON records over them. */
  function MergeAndDedupe(a: seq<Skill>, b: seq<Skill>): seq<Skill>
  {
    Values(PutAll(PutAll([], a), b))
  }

  /** The last record of `s` with key `k`. */
  function LastWithKey(s: seq<Skill>, k: string): (r: Option<Skill>)
    ensures r.Some? ==> r.value in s && SkillKey(r.value) == k
    ensures r.None? ==> forall x :: x in s ==> SkillKey(x) != k
  {
    if |s| == 0 then None
    else if SkillKey(s[|s| - 1]) == k then Some(s[|s| - 1])
    else
      var r := LastWithKey(s[..|s| - 1], k);
      assert forall x :: x in s[..|s| - 1] ==> x in s;
      assert forall x :: x in s ==> x in s[..|s| - 1] || x == s[|s| - 1];
      r
  }

  /** Every pair of the dictionary is stored under its record's key. */
  predicate KeyedBySkill(d: Dicts.Dict<string, Skill>)
  {
    forall i :: 0 <= i < |d| ==> d[i].0 == SkillKey(d[i].1)
  }

  lemma AssignKeyed(d: Dicts.Dict<string, Skill>, sk: Skill)
    requires KeyedBySkill(d)
    ensures KeyedBySkill(Dicts.Assign(d, SkillKey(sk), sk))
  {
  }

  /** Later records win: a key reads the last record carrying it, else what it read before. */
  lemma {:induction false} PutAllLookup(d: Dicts.Dict<string, Skill>, s: seq<Skill>, k: string)
    requires Dicts.UniqueKeys(d) && KeyedBySkill(d)
    ensures Dicts.UniqueKeys(PutAll(d, s)) && KeyedBySkill(PutAll(d, s))
    ensures Dicts.Lookup(PutAll(d, s), k) == if LastWithKey(s, k).Some? then LastWithKey(s, k) else Dicts.Lookup(d, k)
    decreases |s|
  {
    if |s| > 0 {
      var n := |s| - 1;
      var prev := PutAll(d, s[..n]);
      PutAllLookup(d, s[..n], k);
      Dicts.AssignProps(prev, SkillKey(s[n]), s[n]);
      AssignKeyed(prev, s[n]);
    }
  }

  /** In a dictionary keyed by record, a key reads the record stored at its position. */
  lemma LookupAt(d: Dicts.Dict<string, Skill>, i: nat)
    requires Dicts.UniqueKeys(d) && KeyedBySkill(d) && i < |d|
    ensures Dicts.Lookup(d, SkillKey(d[i].1)) == Some(d[i].1)
  {
    Dicts.KeyAt(d, i);
  }

  /** The merged dictionary: a key reads the last JSON record with it, else the last HTML record. */
  lemma MergedLookup(a: seq<Skill>, b: seq<Skill>, k: string)
    ensures var d := PutAll(PutAll([], a), b);
            Dicts.UniqueKeys(d) && KeyedBySkill(d) &&
            Dicts.Lookup(d, k) == if LastWithKey(b, k).Some? then LastWithKey(b, k) else LastWithKey(a, k)
  {
    var empty: Dicts.Dict<string, Skill> := [];
    PutAllLookup(empty, a, k);
    PutAllLookup(PutAll(empty, a), b, k);
  }

  /** `merge_and_dedupe` returns no two records with the same key. */
  lemma MergeAndDedupeUnique(a: seq<Skill>, b: seq<Skill>)
    ensures var r := MergeAndDedupe(a, b);
            forall i, j :: 0 <= i < j < |r| ==> SkillKey(r[i]) != SkillKey(r[j])
  {
    MergedLookup(a, b, "");
  }

  /**
   * Each record `merge_and_dedupe` returns is the last JSON record with its
   * key, or the last HTML record when no JSON record has it.
   */
  lemma MergeAndDedupeLatest(a: seq<Skill>, b: seq<Skill>)
    ensures var r := MergeAndDedupe(a, b);
            forall i :: 0 <= i < |r| ==>
              Some(r[i]) == if LastWithKey(b, SkillKey(r[i])).Some? then LastWithKey(b, SkillKey(r[i])) else LastWithKey(a, SkillKey(r[i]))
  {
    var d := PutAll(PutAll([], a), b);
    var r := MergeAndDedupe(a, b);
    forall i | 0 <= i < |r|
      ensures Some(r[i]) == if LastWithKey(b, SkillKey(r[i])).Some? then LastWithKey(b, SkillKey(r[i])) else LastWithKey(a, SkillKey(r[i]))
    {
      MergedLookup(a, b, SkillKey(r[i]));
      LookupAt(d, i);
    }
  }

  /** Every key of the two inputs is represented in the result of `merge_and_dedupe`. */
  lemma MergeAndDedupeCovers(a: seq<Skill>, b: seq<Skill>)
    ensures var r := MergeAndDedupe(a, b);
            forall x :: x in a + b ==> exists i :: 0 <= i < |r| && SkillKey(r[i]) == SkillKey(x)
  {
    var d := PutAll(PutAll([], a), b);
    var r := MergeAndDedupe(a, b);
    forall x | x in a + b ensures exists i :: 0 <= i < |r| && SkillKey(r[i]) == SkillKey(x) {
      var k := SkillKey(x);
      MergedLookup(a, b, k);
      assert x in a || x in b;
      assert Dicts.Lookup(d, k).Some?;
      Dicts.HasKeyIff(d, k);
      var j :| 0 <= j < |d| && d[j].0 == k;
      assert SkillKey(r[j]) == k;
    }
  }

  /** `merge_and_dedupe`: the two `put` loops over a dictionary, then its values. */
  method MergeAndDedupeLoop(a: seq<Skill>, b: seq<Skill>) returns (merged: seq<Skill>)
    ensures merged == MergeAndDedupe(a, b)
  {
    var result: Dicts.Dict<string, Skill> := [];
    var i := 0;
    while i < |a|
      invariant 0 <= i <= |a|
      invariant result == PutAll([], a[..i])
    {
      assert a[..i + 1][..i] == a[..i];
      result := Put(result, a[i], false);
      i := i + 1;
    }
    assert a[..|a|] == a;
    ghost var afterA := result;
    i := 0;
    while i < |b|
      invariant 0 <= i <= |b|
      invariant result == PutAll(afterA, b[..i])
    {
      assert b[..i + 1][..i] == b[..i];
      result := Put(result, b[i], false);
      i := i + 1;
    }
    assert b[..|b|] == b;
    merged := Values(result);
  }
}
