/**
 * The race flow's pure decisions: removing duplicate star detections,
 * choosing the best race card on a page, whether the chosen card still
 * needs a click, and which running-style button `set_strategy` presses.
 */
module Race {
  import opened Wrappers
  import opened Sorting
  import opened Detections
  import opened Strings

  // ---------------------------------------------------------------------
  // Duplicate stars
  // ---------------------------------------------------------------------

  /** `sorted(stars, key=conf, reverse=True)` order: higher confidence first, ties in input order. */
  predicate ByConfDesc(a: Det, b: Det) { a.conf >= b.conf }

  lemma ConfDescPreorder()
    ensures TotalPreorder(ByConfDesc)
  {
  }

  function RMax(a: real, b: real): real { if a >= b then a else b }
  function RMin(a: real, b: real): real { if a <= b then a else b }

  function Area(d: Det): real
  {
    (d.x2 - d.x1) * (d.y2 - d.y1)
  }

  /** The boxes share an area of positive width and height. */
  predicate Overlapping(s: Det, k: Det)
  {
    RMax(s.x1, k.x1) < RMin(s.x2, k.x2) && RMax(s.y1, k.y1) < RMin(s.y2, k.y2)
  }

  function Intersection(s: Det, k: Det): (a: real)
    requires Overlapping(s, k)
    ensures a > 0.0
  {
    (RMin(s.x2, k.x2) - RMax(s.x1, k.x1)) * (RMin(s.y2, k.y2) - RMax(s.y1, k.y1))
  }

  /** A star that overlaps anything has a positive area, so the ratio in `_deduplicate_stars` is defined. */
  lemma OverlapHasArea(s: Det, k: Det)
    requires Overlapping(s, k)
    ensures Area(s) > 0.0
  {
    assert s.x2 - s.x1 > 0.0 && s.y2 - s.y1 > 0.0;
  }

  /** `s` is a duplicate of the kept star `k`: their intersection exceeds half of `s`'s own area. */
  predicate Covers(s: Det, k: Det)
  {
    Overlapping(s, k) && Intersection(s, k) > 0.5 * Area(s)
  }

  /** `x` duplicates one of the kept items. */
  predicate DuplicateOf<T>(x: T, keep: seq<T>, covers: (T, T) -> bool)
  {
    exists j :: 0 <= j < |keep| && covers(x, keep[j])
  }

  /** The kept items of an ordered list: each is kept unless it duplicates one kept before it. */
  function KeepDistinct<T(==)>(s: seq<T>, covers: (T, T) -> bool): (r: seq<T>)
    ensures |r| <= |s|
    ensures forall x :: x in r ==> x in s
    ensures |s| > 0 ==> |r| > 0 && r[0] == s[0]
  {
    if |s| == 0 then []
    else
      var k := KeepDistinct(s[..|s| - 1], covers);
      var x := s[|s| - 1];
      if DuplicateOf(x, k, covers) then k else k + [x]
  }

  /** No kept item duplicates one kept before it. */
  lemma {:induction false} KeepDistinctSeparated<T(!new)>(s: seq<T>, covers: (T, T) -> bool)
    ensures forall i, j :: 0 <= i < j < |KeepDistinct(s, covers)| ==> !covers(KeepDistinct(s, covers)[j], KeepDistinct(s, covers)[i])
  {
    if |s| > 0 {
      var init := s[..|s| - 1];
      KeepDistinctSeparated(init, covers);
      var k := KeepDistinct(init, covers);
      var x := s[|s| - 1];
      if !DuplicateOf(x, k, covers) {
        var r := k + [x];
        forall i, j | 0 <= i < j < |r| ensures !covers(r[j], r[i]) {
          if j == |k| {
            assert r[i] == k[i] && r[j] == x;
            assert !(0 <= i < |k| && covers(x, k[i]));
            assert !covers(r[j], r[i]);
          } else {
            assert r[j] == k[j] && r[i] == k[i];
            assert !covers(k[j], k[i]);
          }
        }
      }
    }
  }

  /** An item is dropped only when it duplicates a kept item. */
  lemma {:induction false} KeepDistinctCovers<T(!new)>(s: seq<T>, covers: (T, T) -> bool)
    ensures var r := KeepDistinct(s, covers);
            forall i :: 0 <= i < |s| ==> s[i] in r || DuplicateOf(s[i], r, covers)
  {
    if |s| > 0 {
      var init := s[..|s| - 1];
      KeepDistinctCovers(init, covers);
      var k := KeepDistinct(init, covers);
      var r := KeepDistinct(s, covers);
      assert forall j :: 0 <= j < |k| ==> r[j] == k[j];
      forall i | 0 <= i < |s| ensures s[i] in r || DuplicateOf(s[i], r, covers) {
        if i < |s| - 1 {
          assert s[i] == init[i];
          if DuplicateOf(s[i], k, covers) {
            var j :| 0 <= j < |k| && covers(s[i], k[j]);
            assert covers(s[i], r[j]);
          } else {
            assert s[i] in k;
          }
        }
      }
    }
  }

  /** Keeping a sub-list of an ordered list keeps it ordered. */
  lemma {:induction false} KeepDistinctSorted<T(!new)>(s: seq<T>, covers: (T, T) -> bool, le: (T, T) -> bool)
    requires SortedBy(s, le)
    ensures SortedBy(KeepDistinct(s, covers), le)
  {
    if |s| > 0 {
      var init := s[..|s| - 1];
      assert SortedBy(init, le);
      KeepDistinctSorted(init, covers, le);
      var k := KeepDistinct(init, covers);
      var x := s[|s| - 1];
      if !DuplicateOf(x, k, covers) {
        var r := k + [x];
        forall i, j | 0 <= i < j < |r| ensures le(r[i], r[j]) {
          assert r[i] == k[i];
          if j == |k| {
            assert k[i] in init;
            var m :| 0 <= m < |init| && init[m] == k[i];
            assert s[m] == k[i];
          } else {
            assert r[j] == k[j];
          }
        }
      }
    }
  }

  /** `_deduplicate_stars`. */
  function DedupStars(stars: seq<Det>): seq<Det>
  {
    if |stars| <= 1 then stars else KeepDistinct(SortBy(stars, ByConfDesc), Covers)
  }

  /**
   * Short lists come back unchanged. Otherwise the result keeps the most
   * confident star first, is ordered by descending confidence, draws only
   * on the input, drops a star only when it duplicates a kept one, and
   * never keeps a duplicate of an earlier kept star.
   */
  lemma DedupStarsProps(stars: seq<Det>)
    ensures |stars| <= 1 ==> DedupStars(stars) == stars
    ensures var r := DedupStars(stars);
            |stars| >= 2 ==>
              |r| >= 1 && (forall x :: x in stars ==> r[0].conf >= x.conf) &&
              SortedBy(r, ByConfDesc) &&
              (forall x :: x in r ==> x in stars) &&
              (forall x :: x in stars ==> x in r || DuplicateOf(x, r, Covers)) &&
              (forall i, j :: 0 <= i < j < |r| ==> !Covers(r[j], r[i]))
  {
    if |stars| >= 2 {
      var sorted := SortBy(stars, ByConfDesc);
      ConfDescPreorder();
      SortBySorted(stars, ByConfDesc);
      KeepDistinctSorted(sorted, Covers, ByConfDesc);
      KeepDistinctCovers(sorted, Covers);
      KeepDistinctSeparated(sorted, Covers);
      var r := KeepDistinct(sorted, Covers);
      forall x | x in stars ensures r[0].conf >= x.conf && (x in r || DuplicateOf(x, r, Covers)) {
        assert x in multiset(sorted);
        var m :| 0 <= m < |sorted| && sorted[m] == x;
        assert m == 0 || ByConfDesc(sorted[0], sorted[m]);
      }
      forall x | x in r ensures x in stars {
        assert x in multiset(sorted);
      }
    }
  }

  /** Dividing by a positive area: the ratio exceeds one half exactly when the part exceeds half the area. */
  lemma RatioAboveHalf(part: real, area: real)
    requires area > 0.0
    ensures part / area > 0.5 <==> part > 0.5 * area
  {
    var q := part / area;
    assert part == q * area;
    assert part - 0.5 * area == (q - 0.5) * area;
  }

  /** The inner loop: whether `star` duplicates one of the stars kept so far. */
  method IsDuplicate(star: Det, keep: seq<Det>) returns (dup: bool)
    ensures dup == DuplicateOf(star, keep, Covers)
  {
    var sArea := (star.x2 - star.x1) * (star.y2 - star.y1);
    dup := false;
    for j := 0 to |keep|
      invariant forall m :: 0 <= m < j ==> !Covers(star, keep[m])
    {
      var kept := keep[j];
      var ix1, iy1 := RMax(star.x1, kept.x1), RMax(star.y1, kept.y1);
      var ix2, iy2 := RMin(star.x2, kept.x2), RMin(star.y2, kept.y2);
      if ix2 > ix1 && iy2 > iy1 {
        var intersection := (ix2 - ix1) * (iy2 - iy1);
        OverlapHasArea(star, kept);
        assert Overlapping(star, kept) && intersection == Intersection(star, kept) && sArea == Area(star);
        RatioAboveHalf(intersection, sArea);
        if intersection / sArea > 0.5 {
          assert Covers(star, keep[j]);
          dup := true;
          break;
        }
      }
    }
  }

  /** `_deduplicate_stars` as the source runs it. */
  method DeduplicateStars(stars: seq<Det>) returns (keep: seq<Det>)
    ensures keep == DedupStars(stars)
  {
    if |stars| <= 1 {
      return stars;
    }
    var sortedStars := SortBy(stars, ByConfDesc);
    keep := [];
    for i := 0 to |sortedStars|
      invariant keep == KeepDistinct(sortedStars[..i], Covers)
    {
      assert sortedStars[..i + 1][..i] == sortedStars[..i];
      var isDuplicate := IsDuplicate(sortedStars[i], keep);
      if !isDuplicate {
        keep := keep + [sortedStars[i]];
      }
    }
    assert sortedStars[..|sortedStars|] == sortedStars;
  }

  // ---------------------------------------------------------------------
  // The best card on a page
  // ---------------------------------------------------------------------

  const MinStars := 2

  /** The stars whose box lies inside the square; `inside` is the geometry test with its padding. */
  function StarCount(stars: seq<Det>, sq: Det, inside: (Det, Det) -> bool): nat
  {
    if |stars| == 0 then 0
    else StarCount(stars[..|stars| - 1], sq, inside) + (if inside(stars[|stars| - 1], sq) then 1 else 0)
  }

  /** A candidate card with its badge rank and vertical centre. */
  datatype Best = Best(square: Det, rank: int, y: real)

  /** `b` is at least as good as `c`: a higher rank, or the same rank and no lower on screen. */
  predicate AtLeast(b: Best, c: Best)
  {
    c.rank < b.rank || (c.rank == b.rank && c.y >= b.y)
  }

  /** The running best: a strictly higher rank, or the same rank further up, replaces it. */
  function Better(acc: Option<Best>, c: Best): (r: Option<Best>)
    ensures r.Some? && AtLeast(r.value, c)
    ensures acc.Some? ==> AtLeast(r.value, acc.value)
    ensures r == acc || r == Some(c)
  {
    if acc.None? || c.rank > acc.value.rank || (c.rank == acc.value.rank && c.y < acc.value.y) then Some(c) else acc
  }

  /** The result of scanning one page: a G1 card taken at once, or the best candidate so far. */
  datatype PageOutcome = G1Pick(square: Det) | Carry(best: Option<Best>)

  /** What the scan needs to know about each square. */
  datatype PageView = PageView(stars: seq<Det>, inside: (Det, Det) -> bool, labelOf: Det -> string,
                               priority: map<string, int>, prioritizeG1: bool, isG1Goal: bool)

  function Rank(v: PageView, sq: Det): int
  {
    if v.labelOf(sq) in v.priority then v.priority[v.labelOf(sq)] else 0
  }

  function CardOf(v: PageView, sq: Det): Best
  {
    Best(sq, Rank(v, sq), CenterY(sq))
  }

  predicate Eligible(v: PageView, sq: Det)
  {
    StarCount(v.stars, sq, v.inside) >= MinStars
  }

  /** An eligible square the G1 preference takes at once. */
  predicate G1Hit(v: PageView, sq: Det)
  {
    Eligible(v, sq) && (v.prioritizeG1 || v.isG1Goal) && v.labelOf(sq) == "G1"
  }

  /** An eligible square that competes for the best card. */
  predicate Competes(v: PageView, sq: Det)
  {
    Eligible(v, sq) && !v.isG1Goal && !G1Hit(v, sq)
  }

  /** The no-desired-race branch of `_pick_race_square` over the squares from `i` on, with the best so far. */
  function ScanPage(squares: seq<Det>, i: nat, acc: Option<Best>, v: PageView): PageOutcome
    requires i <= |squares|
    decreases |squares| - i
  {
    if i == |squares| then Carry(acc)
    else
      var sq := squares[i];
      if !Eligible(v, sq) then ScanPage(squares, i + 1, acc, v)
      else if G1Hit(v, sq) then G1Pick(sq)
      else if v.isG1Goal then ScanPage(squares, i + 1, acc, v)
      else ScanPage(squares, i + 1, Better(acc, CardOf(v, sq)), v)
  }

  /**
   * A G1 pick is the first eligible G1 square. Otherwise no square was a
   * G1 hit, and the best candidate beats or ties every competing square
   * and the incoming best, and is one of them.
   */
  lemma {:induction false} ScanPageMeaning(squares: seq<Det>, i: nat, acc: Option<Best>, v: PageView)
    requires i <= |squares|
    ensures var out := ScanPage(squares, i, acc, v);
            (out.G1Pick? ==> exists k :: i <= k < |squares| && squares[k] == out.square && G1Hit(v, squares[k]) &&
                                         forall m :: i <= m < k ==> !G1Hit(v, squares[m])) &&
            (out.Carry? ==> (forall m :: i <= m < |squares| ==> !G1Hit(v, squares[m])) &&
                            (acc.Some? ==> out.best.Some? && AtLeast(out.best.value, acc.value)) &&
                            (forall m :: i <= m < |squares| && Competes(v, squares[m]) ==>
                                           out.best.Some? && AtLeast(out.best.value, CardOf(v, squares[m]))) &&
                            (out.best.Some? ==> out.best == acc ||
                                                exists m :: i <= m < |squares| && Competes(v, squares[m]) && out.best.value == CardOf(v, squares[m])))
    decreases |squares| - i
  {
    if i < |squares| {
      var sq := squares[i];
      if !Eligible(v, sq) || (!G1Hit(v, sq) && v.isG1Goal) {
        ScanPageMeaning(squares, i + 1, acc, v);
      } else if !G1Hit(v, sq) {
        var acc2 := Better(acc, CardOf(v, sq));
        ScanPageMeaning(squares, i + 1, acc2, v);
        var out := ScanPage(squares, i, acc, v);
        if out.Carry? {
          assert out.best.Some? && AtLeast(out.best.value, acc2.value);
        }
      }
    }
  }

  /** The loop over the squares of one page. */
  method PickOnPage(squares: seq<Det>, acc: Option<Best>, v: PageView) returns (out: PageOutcome)
    ensures out == ScanPage(squares, 0, acc, v)
  {
    var best := acc;
    for i := 0 to |squares|
      invariant ScanPage(squares, 0, acc, v) == ScanPage(squares, i, best, v)
    {
      var sq := squares[i];
      var sCnt := StarCount(v.stars, sq, v.inside);
      if sCnt < MinStars {
        continue;
      }
      var badge := v.labelOf(sq);
      var rank := if badge in v.priority then v.priority[badge] else 0;
      var ymid := (sq.y1 + sq.y2) / 2.0;
      if v.prioritizeG1 || v.isG1Goal {
        if badge == "G1" {
          return G1Pick(sq);
        }
        if !v.isG1Goal {
          if best.None? || rank > best.value.rank || (rank == best.value.rank && ymid < best.value.y) {
            best := Some(Best(sq, rank, ymid));
          }
        }
      } else {
        if best.None? || rank > best.value.rank || (rank == best.value.rank && ymid < best.value.y) {
          best := Some(Best(sq, rank, ymid));
        }
      }
    }
    return Carry(best);
  }

  /** The box of a detection, as the tuple the source compares. */
  function Box(d: Det): (real, real, real, real)
  {
    (d.x1, d.y1, d.x2, d.y2)
  }

  /** `need_click`: the card still needs a tap unless nothing scrolled and it is the card first seen on top. */
  function NeedClick(didScroll: bool, firstTop: Option<(real, real, real, real)>, pick: Det): (r: bool)
    ensures !r <==> !didScroll && firstTop == Some(Box(pick))
  {
    !(!didScroll && firstTop.Some? && Box(pick) == firstTop.value)
  }

  /** After scrolling, a pick always needs a tap. */
  lemma ScrolledAlwaysClicks(firstTop: Option<(real, real, real, real)>, pick: Det)
    ensures NeedClick(true, firstTop, pick)
  {
  }

  // ---------------------------------------------------------------------
  // Running style
  // ---------------------------------------------------------------------

  const StyleOrder: seq<string> := ["end", "late", "pace", "front"]

  /** The requested style, lower-cased and trimmed; anything unknown becomes "front". */
  function NormalizeStyle(s: string): (r: string)
    ensures r in StyleOrder
    ensures Lower(Strip(s)) in StyleOrder ==> r == Lower(Strip(s))
  {
    var t := Lower(Strip(s));
    if t in StyleOrder then t else "front"
  }

  /** A word of lower-case letters is its own stripped, lower-cased form. */
  lemma PlainLowerWord(w: string)
    requires forall i :: 0 <= i < |w| ==> IsLowerAscii(w[i])
    ensures Lower(Strip(w)) == w
  {
    StripNoEdge(w);
  }

  lemma StyleWordsPlain(w: string)
    requires w in StyleOrder
    ensures forall i :: 0 <= i < |w| ==> IsLowerAscii(w[i])
  {
    assert w == StyleOrder[0] || w == StyleOrder[1] || w == StyleOrder[2] || w == StyleOrder[3];
  }

  /** Normalising twice changes nothing more. */
  lemma NormalizeStyleIdempotent(s: string)
    ensures NormalizeStyle(NormalizeStyle(s)) == NormalizeStyle(s)
  {
    var r := NormalizeStyle(s);
    StyleWordsPlain(r);
    PlainLowerWord(r);
  }

  /** The position of a style in the modal, left to right. */
  function StyleIndex(style: string): (i: nat)
    requires style in StyleOrder
    ensures i < |StyleOrder| && StyleOrder[i] == style
  {
    if style == "end" then 0 else if style == "late" then 1 else if style == "pace" then 2 else 3
  }

  /** `max(whites, key=y_center)`: the index of the first lowest button. */
  function CancelIndex(whites: seq<Det>): (ci: nat)
    requires |whites| > 0
    ensures ci < |whites|
    ensures forall k :: 0 <= k < |whites| ==> CenterY(whites[k]) <= CenterY(whites[ci])
    ensures forall k :: 0 <= k < ci ==> CenterY(whites[k]) < CenterY(whites[ci])
  {
    if |whites| == 1 then 0
    else
      var p := CancelIndex(whites[..|whites| - 1]);
      assert forall k :: 0 <= k < |whites| - 1 ==> whites[..|whites| - 1][k] == whites[k];
      if CenterY(whites[|whites| - 1]) > CenterY(whites[p]) then |whites| - 1 else p
  }

  /** The white buttons other than the cancel button among the first `n`, optionally only those clearly above it. */
  function OtherWhites(whites: seq<Det>, ci: nat, above: bool, n: nat): (r: seq<Det>)
    requires ci < |whites| && n <= |whites|
    ensures |r| <= n
    ensures forall x :: x in r ==> exists k :: 0 <= k < n && k != ci && whites[k] == x
    ensures forall k :: 0 <= k < n && k != ci && (!above || CenterY(whites[k]) < CenterY(whites[ci]) - 10.0) ==> whites[k] in r
  {
    if n == 0 then []
    else
      var p := OtherWhites(whites, ci, above, n - 1);
      var k := n - 1;
      p + (if k != ci && (!above || CenterY(whites[k]) < CenterY(whites[ci]) - 10.0) then [whites[k]] else [])
  }

  predicate ByXCenter(a: Det, b: Det) { CenterX(a) <= CenterX(b) }

  /** The style buttons, left to right: the whites above the cancel row, or failing that every white but the cancel button. */
  function StyleButtons(whites: seq<Det>): seq<Det>
    requires |whites| > 0
  {
    var ci := CancelIndex(whites);
    var above := OtherWhites(whites, ci, true, |whites|);
    SortBy(if above == [] then OtherWhites(whites, ci, false, |whites|) else above, ByXCenter)
  }

  /** A lone white button is the cancel button and leaves no style button. */
  lemma LoneWhiteLeavesNone(w: Det)
    ensures StyleButtons([w]) == []
  {
  }

  /** With two or more whites there is always a style button. */
  lemma TwoWhitesLeaveOne(whites: seq<Det>)
    requires |whites| >= 2
    ensures |StyleButtons(whites)| >= 1
  {
    var ci := CancelIndex(whites);
    var k := if ci == 0 then 1 else 0;
    assert whites[k] in OtherWhites(whites, ci, false, |whites|);
  }

  /** The label-matching loop of the fallback: the first button of best label score. */
  method BestLabel(buttons: seq<Det>, labelScore: Det -> real) returns (best: Option<Det>, bestScore: real)
    ensures (best, bestScore) == FirstMax(buttons, labelScore)
  {
    best, bestScore := None, 0.0;
    for i := 0 to |buttons|
      invariant (best, bestScore) == FirstMax(buttons[..i], labelScore)
    {
      assert buttons[..i + 1][..i] == buttons[..i];
      assert buttons[..i + 1][i] == buttons[i];
      var sc := labelScore(buttons[i]);
      if sc > bestScore {
        best, bestScore := Some(buttons[i]), sc;
      }
    }
    assert buttons[..|buttons|] == buttons;
  }

  const LabelAccept: real := 0.45

  /** The outcome of the choice as written: a button, or the IndexError of `style_btns[-1]` on an empty list. */
  datatype Choice = Chosen(button: Det) | IndexError

  /** The style choice of `set_strategy` as written. */
  function ChooseStyleAsWritten(buttons: seq<Det>, style: string, labelScore: Det -> real): Choice
    requires style in StyleOrder
  {
    if |buttons| >= 4 then Chosen(buttons[StyleIndex(style)])
    else
      var m := FirstMax(buttons, labelScore);
      if m.0.Some? && m.1 >= LabelAccept then Chosen(m.0.value)
      else
        var idx := if StyleIndex(style) <= |buttons| - 1 then StyleIndex(style) else |buttons| - 1;
        if idx < 0 then IndexError else Chosen(buttons[idx])
  }

  /** With a single white button detected, the choice as written raises instead of giving up. */
  lemma LoneWhiteRaises(w: Det, style: string, labelScore: Det -> real)
    requires style in StyleOrder
    ensures ChooseStyleAsWritten(StyleButtons([w]), style, labelScore) == IndexError
  {
    LoneWhiteLeavesNone(w);
  }

  /**
   * The style choice with the empty case handled: no button at all gives
   * none (and `set_strategy` returns false). Four or more buttons are taken
   * by position; fewer go by label score at 0.45 or above, else the
   * closest position available.
   */
  function ChooseStyle(buttons: seq<Det>, style: string, labelScore: Det -> real): (r: Option<Det>)
    requires style in StyleOrder
    ensures r.None? <==> |buttons| == 0
    ensures r.Some? ==> r.value in buttons
    ensures |buttons| >= 4 ==> r == Some(buttons[StyleIndex(style)])
    ensures 0 < |buttons| < 4 && !(FirstMax(buttons, labelScore).0.Some? && FirstMax(buttons, labelScore).1 >= LabelAccept) ==>
              r == Some(buttons[if StyleIndex(style) < |buttons| then StyleIndex(style) else |buttons| - 1])
    ensures |buttons| > 0 ==> ChooseStyleAsWritten(buttons, style, labelScore) == Chosen(r.value)
  {
    if |buttons| == 0 then None
    else if |buttons| >= 4 then Some(buttons[StyleIndex(style)])
    else
      var m := FirstMax(buttons, labelScore);
      if m.0.Some? && m.1 >= LabelAccept then Some(m.0.value)
      else Some(buttons[if StyleIndex(style) < |buttons| then StyleIndex(style) else |buttons| - 1])
  }

  /**
   * The style button `set_strategy` presses, or none where it returns
   * false: the change button must be unique and some white button must
   * be visible.
   */
  method SelectStyleButton(changeButtons: nat, selectStyle: string, whites: seq<Det>, labelScore: Det -> real)
    returns (chosen: Option<Det>)
    ensures changeButtons != 1 || |whites| == 0 ==> chosen.None?
    ensures changeButtons == 1 && |whites| > 0 ==>
              chosen == ChooseStyle(StyleButtons(whites), NormalizeStyle(selectStyle), labelScore)
  {
    if changeButtons != 1 {
      return None;
    }
    var style := NormalizeStyle(selectStyle);
    if |whites| == 0 {
      return None;
    }
    var buttons := StyleButtons(whites);
    if |buttons| >= 4 {
      return Some(buttons[StyleIndex(style)]);
    }
    var best, bestScore := BestLabel(buttons, labelScore);
    if best.Some? && bestScore >= LabelAccept {
      return best;
    }
    if |buttons| == 0 {
      return None;
    }
    var targetIdx := StyleIndex(style);
    return Some(buttons[if targetIdx < |buttons| then targetIdx else |buttons| - 1]);
  }
}
