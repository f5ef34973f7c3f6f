/**
 * Date-based running style changes: a schedule of (date, style) entries kept
 * in date order, the style active at a career date, and the last style
 * applied so that an unchanged style is not clicked again.
 */
module StyleSchedule {
  import opened Wrappers
  import opened JsonValues
  import opened Sorting

  /** A career date: year code, month and half (1 early, 2 late). */
  datatype Date = Date(yearCode: int, month: int, half: int)

  /** `date_cmp(a, b) <= 0`: dates ordered by year code, then month, then half. */
  predicate DateLe(a: Date, b: Date)
  {
    a.yearCode < b.yearCode ||
    (a.yearCode == b.yearCode && (a.month < b.month || (a.month == b.month && a.half <= b.half)))
  }

  /** `StyleScheduleEntry`. */
  datatype Entry = Entry(yearCode: int, month: int, half: int, style: string)

  /** `as_date_info`. */
  function AsDate(e: Entry): Date
  {
    Date(e.yearCode, e.month, e.half)
  }

  /** The sort order of the entries: by `(year_code, month, half)`. */
  predicate EntryLe(a: Entry, b: Entry)
  {
    DateLe(AsDate(a), AsDate(b))
  }

  lemma EntryLePreorder()
    ensures TotalPreorder(EntryLe)
  {
  }

  const ValidStyles: set<string> := {"end", "late", "pace", "front"}

  /** `StyleScheduleEntry.from_dict`: `None` where one of the `int(...)` conversions raises. */
  function FromDict(d: Json): (r: Option<Entry>)
    ensures r.Some? ==> ToInt(Field(d, "yearCode").GetOr(JInt(1))) == Some(r.value.yearCode) &&
                        ToInt(Field(d, "month").GetOr(JInt(1))) == Some(r.value.month) &&
                        ToInt(Field(d, "half").GetOr(JInt(1))) == Some(r.value.half)
  {
    var y := ToInt(Field(d, "yearCode").GetOr(JInt(1)));
    var m := ToInt(Field(d, "month").GetOr(JInt(1)));
    var h := ToInt(Field(d, "half").GetOr(JInt(1)));
    if y.None? || m.None? || h.None? then None
    else Some(Entry(y.value, m.value, h.value, ScalarText(Field(d, "style").GetOr(JStr("pace")))))
  }

  /** The entry a schedule item contributes: parsed and with a valid style. */
  function Accepted(d: Json): Option<Entry>
  {
    match FromDict(d)
    case Some(e) => if e.style in ValidStyles then Some(e) else None
    case None => None
  }

  /** The values `f` yields over a list, in list order. */
  function KeepSome<A, B>(s: seq<A>, f: A -> Option<B>): seq<B>
  {
    if |s| == 0 then []
    else
      var n := |s| - 1;
      KeepSome(s[..n], f) + (match f(s[n]) case Some(e) => [e] case None => [])
  }

  lemma {:induction false} KeepSomeMembers<A, B>(s: seq<A>, f: A -> Option<B>, x: B)
    ensures x in KeepSome(s, f) <==> exists i :: 0 <= i < |s| && f(s[i]) == Some(x)
    decreases |s|
  {
    if |s| > 0 {
      var n := |s| - 1;
      KeepSomeMembers(s[..n], f, x);
      if exists i :: 0 <= i < |s| && f(s[i]) == Some(x) {
        var i :| 0 <= i < |s| && f(s[i]) == Some(x);
        if i < n { assert s[..n][i] == s[i]; }
      }
      if exists i :: 0 <= i < n && f(s[..n][i]) == Some(x) {
        var i :| 0 <= i < n && f(s[..n][i]) == Some(x);
        assert s[..n][i] == s[i];
      }
    }
  }

  /** The entries the constructor's loop keeps, in schedule order. */
  function ScheduleEntries(schedule: seq<Json>): seq<Entry>
  {
    KeepSome(schedule, Accepted)
  }

  /** An entry is kept exactly when some schedule item parses to it with a valid style. */
  lemma ScheduleEntriesMembers(schedule: seq<Json>, x: Entry)
    ensures x in ScheduleEntries(schedule) <==>
            x.style in ValidStyles && exists i :: 0 <= i < |schedule| && FromDict(schedule[i]) == Some(x)
  {
    KeepSomeMembers(schedule, Accepted, x);
    if exists i :: 0 <= i < |schedule| && FromDict(schedule[i]) == Some(x) {
      var i :| 0 <= i < |schedule| && FromDict(schedule[i]) == Some(x);
      AcceptedIff(schedule[i], x);
    }
    if exists i :: 0 <= i < |schedule| && Accepted(schedule[i]) == Some(x) {
      var i :| 0 <= i < |schedule| && Accepted(schedule[i]) == Some(x);
      AcceptedIff(schedule[i], x);
    }
  }

  /** An accepted item is one that parses and names one of the four running styles. */
  lemma AcceptedIff(d: Json, x: Entry)
    ensures Accepted(d) == Some(x) <==> FromDict(d) == Some(x) && x.style in ValidStyles
  {
  }

  /** The schedule after the constructor: the kept entries, sorted by date. */
  function SortedSchedule(schedule: seq<Json>): seq<Entry>
  {
    SortBy(ScheduleEntries(schedule), EntryLe)
  }

  /**
   * The constructor's schedule is in date order, holds exactly the kept
   * entries, and every style in it is one of the four running styles.
   */
  lemma SortedScheduleProps(schedule: seq<Json>)
    ensures var es := SortedSchedule(schedule);
            SortedBy(es, EntryLe) && multiset(es) == multiset(ScheduleEntries(schedule)) &&
            forall i :: 0 <= i < |es| ==> es[i].style in ValidStyles
  {
    EntryLePreorder();
    SortBySorted(ScheduleEntries(schedule), EntryLe);
    var es := SortedSchedule(schedule);
    forall i | 0 <= i < |es| ensures es[i].style in ValidStyles {
      assert es[i] in multiset(ScheduleEntries(schedule));
      ScheduleEntriesMembers(schedule, es[i]);
    }
  }

  /** The loop of `get_style_for_date` from some entry on: take each due entry's style, stop at the first future one. */
  function ActiveFrom(es: seq<Entry>, active: Option<string>, date: Date): Option<string>
  {
    if |es| == 0 then active
    else if DateLe(AsDate(es[0]), date) then ActiveFrom(es[1..], Some(es[0].style), date)
    else active
  }

  /** The index of the latest entry dated on or before `date`. */
  function LastDue(es: seq<Entry>, date: Date): (r: Option<nat>)
    ensures r.Some? ==> r.value < |es| && DateLe(AsDate(es[r.value]), date) &&
                        forall k :: r.value < k < |es| ==> !DateLe(AsDate(es[k]), date)
    ensures r.None? ==> forall k :: 0 <= k < |es| ==> !DateLe(AsDate(es[k]), date)
  {
    if |es| == 0 then None
    else if DateLe(AsDate(es[|es| - 1]), date) then Some(|es| - 1)
    else LastDue(es[..|es| - 1], date)
  }

  /**
   * On a schedule in date order the loop's answer is the style of the
   * latest entry dated on or before the date, or the starting style when
   * there is none.
   */
  lemma {:induction false} ActiveIsLatestDue(es: seq<Entry>, active: Option<string>, date: Date)
    requires SortedBy(es, EntryLe)
    ensures ActiveFrom(es, active, date) == match LastDue(es, date) case Some(i) => Some(es[i].style) case None => active
    decreases |es|
  {
    if |es| > 0 {
      var tail := es[1..];
      assert SortedBy(tail, EntryLe) by {
        forall i, j | 0 <= i < j < |tail| ensures EntryLe(tail[i], tail[j]) { assert tail[i] == es[i + 1] && tail[j] == es[j + 1]; }
      }
      if DateLe(AsDate(es[0]), date) {
        ActiveIsLatestDue(tail, Some(es[0].style), date);
        match LastDue(tail, date)
        case Some(j) =>
          assert tail[j] == es[j + 1];
          assert forall k :: j + 1 < k < |es| ==> es[k] == tail[k - 1];
          LastDueUnique(es, date, j + 1);
        case None =>
          assert forall k :: 1 <= k < |es| ==> es[k] == tail[k - 1];
          LastDueUnique(es, date, 0);
      } else {
        forall k | 0 <= k < |es| ensures !DateLe(AsDate(es[k]), date) {
          if k > 0 { assert EntryLe(es[0], es[k]); }
        }
      }
    }
  }

  /** The latest due index is the one due index with nothing due after it. */
  lemma LastDueUnique(es: seq<Entry>, date: Date, i: nat)
    requires i < |es| && DateLe(AsDate(es[i]), date)
    requires forall k :: i < k < |es| ==> !DateLe(AsDate(es[k]), date)
    ensures LastDue(es, date) == Some(i)
  {
  }

  /** `should_apply_style`'s decision: apply a non-empty style that differs from the last one applied. */
  function Decide(style: Option<string>, lastApplied: Option<string>): (r: (bool, Option<string>))
    ensures r.0 <==> style.Some? && style.value != "" && style != lastApplied
    ensures r.0 ==> r.1 == style
    ensures !r.0 ==> r.1.None?
  {
    if style.Some? && style.value != "" && style != lastApplied then (true, style) else (false, None)
  }

  /** Once a style is marked applied it is not applied again; after a reset it is. */
  lemma DecideAfterMarkAndReset(s: string)
    requires s in ValidStyles
    ensures Decide(Some(s), Some(s)) == (false, None)
    ensures Decide(Some(s), None) == (true, Some(s))
  {
  }

  /** Nothing configured gives nothing to apply. */
  lemma DecideNothing(lastApplied: Option<string>)
    ensures Decide(None, lastApplied) == (false, None)
  {
  }

  /** `StyleScheduleManager`. */
  class StyleScheduleManager {
    var debutStyle: Option<string>
    var entries: seq<Entry>
    var lastApplied: Option<string>

    /** The schedule is in date order and holds only valid styles; so does the debut style. */
    ghost predicate Valid()
      reads this
    {
      SortedBy(entries, EntryLe) && (forall i :: 0 <= i < |entries| ==> entries[i].style in ValidStyles) &&
      (debutStyle.Some? ==> debutStyle.value in ValidStyles)
    }

    /** `__init__`: an invalid debut style becomes none; the schedule items are parsed, filtered and sorted. */
    constructor (schedule: seq<Json>, debut: Option<string>)
      requires forall i :: 0 <= i < |schedule| ==> schedule[i].JObj?
      ensures debutStyle == (if debut.Some? && debut.value in ValidStyles then debut else None)
      ensures entries == SortedSchedule(schedule)
      ensures lastApplied.None?
      ensures Valid()
    {
      debutStyle := if debut.Some? && debut.value in ValidStyles then debut else None;
      var parsed: seq<Entry> := [];
      var i := 0;
      while i < |schedule|
        invariant 0 <= i <= |schedule|
        invariant parsed == KeepSome(schedule[..i], Accepted)
      {
        assert schedule[..i + 1][..i] == schedule[..i];
        var entry := FromDict(schedule[i]);
        if entry.Some? && entry.value.style in ValidStyles {
          parsed := parsed + [entry.value];
        }
        i := i + 1;
      }
      assert schedule[..|schedule|] == schedule;
      entries := SortBy(parsed, EntryLe);
      lastApplied := None;
      SortedScheduleProps(schedule);
    }

    /** `get_style_for_date`: the latest entry dated on or before `date`, else the debut style. */
    method GetStyleForDate(date: Date) returns (style: Option<string>)
      requires Valid()
      ensures style == match LastDue(entries, date) case Some(i) => Some(entries[i].style) case None => debutStyle
      ensures style.Some? ==> style.value in ValidStyles
    {
      var active := debutStyle;
      var i := 0;
      while i < |entries|
        invariant 0 <= i <= |entries|
        invariant ActiveFrom(entries, debutStyle, date) == ActiveFrom(entries[i..], active, date)
        invariant active.Some? ==> active.value in ValidStyles
      {
        var entry := entries[i];
        if DateLe(AsDate(entry), date) {
          assert entries[i..][1..] == entries[i + 1..];
          active := Some(entry.style);
        } else {
          break;
        }
        i := i + 1;
      }
      style := active;
      ActiveIsLatestDue(entries, debutStyle, date);
    }

    /** `should_apply_style`: apply the active style when it differs from the last one applied; no state changes. */
    method ShouldApplyStyle(date: Date) returns (apply: bool, style: Option<string>)
      requires Valid()
      ensures (apply, style) == Decide(match LastDue(entries, date) case Some(i) => Some(entries[i].style) case None => debutStyle, lastApplied)
    {
      var active := GetStyleForDate(date);
      if active.Some? && active.value != "" && active != lastApplied {
        return true, active;
      }
      return false, None;
    }

    /** `mark_applied`. */
    method MarkApplied(style: string)
      modifies this
      ensures lastApplied == Some(style)
      ensures entries == old(entries) && debutStyle == old(debutStyle)
    {
      lastApplied := Some(style);
    }

    /** `reset`: forget the last applied style. */
    method Reset()
      modifies this
      ensures lastApplied.None?
      ensures entries == old(entries) && debutStyle == old(debutStyle)
    {
      lastApplied := None;
    }

    /** `has_schedule`. */
    function HasSchedule(): (r: bool)
      reads this
      ensures r <==> entries != []
    {
      |entries| > 0
    }
  }
}
