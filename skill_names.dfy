/**
 * Canonical skill names: the grade symbols ◎, ○ and × removed and
 * whitespace collapsed. The same rule appears in the training scorer, the
 * skills flow and the scenario agent.
 */
module SkillNames {
  import opened Wrappers
  import opened Strings
  import opened Sorting

  const GradeChars: set<char> := {'◎', '○', '×'}

  predicate NotGrade(c: char) { c !in GradeChars }

  /**
   * `s.replace("◎", "").replace("○", "").replace("×", "")`: the other
   * characters of `s`, in order.
   */
  function DropGradeSymbols(s: string): (r: string)
    ensures AllOf(r, NotGrade)
    ensures |r| <= |s|
    ensures AllOf(s, NotGrade) ==> r == s
    ensures r == Filter(s, NotGrade)
  {
    if |s| == 0 then ""
    else (if s[0] in GradeChars then "" else [s[0]]) + DropGradeSymbols(s[1..])
  }

  /** `_canon_skill` / `_canon_skill_name`: symbols dropped, then `" ".join(s.split())`. */
  function CanonSkill(s: string): string
  {
    CollapseWhitespace(DropGradeSymbols(s))
  }

  /** A canonical name carries no grade symbol. */
  lemma CanonSkillNoGrade(s: string)
    ensures AllOf(CanonSkill(s), NotGrade)
  {
    var d := DropGradeSymbols(s);
    WordsAllOf(d, NotGrade);
    JoinAllOf(" ", Words(d), NotGrade);
  }

  /** `_canonical_skill_name`: the canonical name, or none when the name is missing or nothing is left. */
  function CanonicalSkillName(name: Option<string>): (r: Option<string>)
    ensures r.Some? ==> r.value != "" && AllOf(r.value, NotGrade)
    ensures name.Some? && name.value != "" && CanonSkill(name.value) != "" ==> r == Some(CanonSkill(name.value))
  {
    if name.None? || name.value == "" then None
    else
      var c := CanonSkill(name.value);
      CanonSkillNoGrade(name.value);
      if c == "" then None else Some(c)
  }

  /** `_grade_from_name`: the first of ◎, ○, × the name contains. */
  function GradeFromName(name: Option<string>): (r: Option<char>)
    ensures r.Some? ==> name.Some? && r.value in GradeChars && HasChar(name.value, r.value)
    ensures r == Some('○') ==> !HasChar(name.value, '◎')
    ensures r == Some('×') ==> !HasChar(name.value, '◎') && !HasChar(name.value, '○')
    ensures r.None? <==> name.None? || AllOf(name.value, NotGrade)
  {
    if name.None? || name.value == "" then None
    else if HasChar(name.value, '◎') then Some('◎')
    else if HasChar(name.value, '○') then Some('○')
    else if HasChar(name.value, '×') then Some('×')
    else None
  }

  /** The grade of a canonical name is none: the two functions split a name into its parts. */
  lemma CanonicalNameHasNoGrade(name: Option<string>)
    ensures CanonicalSkillName(name).Some? ==> GradeFromName(CanonicalSkillName(name)).None?
  {
  }
}
