/**
 * Navigation helpers: picking detections by class and confidence, rows
 * read top to bottom, the detections inside a row, the shop items the
 * user asked for, and repeated button clicks.
 */
module Nav {
  import opened Sorting
  import opened Detections

  /** A detection of class `name` at confidence `confMin` or better. */
  predicate Matches(name: string, confMin: real, d: Det)
  {
    d.name == name && d.conf >= confMin
  }

  function MatchesTest(name: string, confMin: real): Det -> bool
  {
    d => Matches(name, confMin, d)
  }

  /** `by_name`: the matching detections in their original order. */
  function ByName(dets: seq<Det>, name: string, confMin: real): (r: seq<Det>)
    ensures forall k :: 0 <= k < |r| ==> Matches(name, confMin, r[k])
  {
    Filter(dets, MatchesTest(name, confMin))
  }

  /** A detection is picked by name exactly when it is one of the input that matches. */
  lemma ByNameExact(dets: seq<Det>, name: string, confMin: real)
    ensures forall d :: d in ByName(dets, name, confMin) <==> d in dets && Matches(name, confMin, d)
  {
    FilterExact(dets, MatchesTest(name, confMin));
  }

  /** `has`: the `any` over the detections. */
  function Has(dets: seq<Det>, name: string, confMin: real): (b: bool)
    ensures b <==> exists m :: 0 <= m < |dets| && Matches(name, confMin, dets[m])
  {
    if |dets| == 0 then false
    else
      var rest := Has(dets[1..], name, confMin);
      assert forall m :: 0 <= m < |dets| - 1 ==> dets[1..][m] == dets[m + 1];
      Matches(name, confMin, dets[0]) || rest
  }

  /** `has` agrees with `by_name`: something matches exactly when the picked list is not empty. */
  lemma HasIffByName(dets: seq<Det>, name: string, confMin: real)
    ensures Has(dets, name, confMin) <==> |ByName(dets, name, confMin)| > 0
  {
    ByNameExact(dets, name, confMin);
    if |ByName(dets, name, confMin)| > 0 {
      var d := ByName(dets, name, confMin)[0];
      var m :| 0 <= m < |dets| && dets[m] == d;
      assert Matches(name, confMin, dets[m]);
    }
    if Has(dets, name, confMin) {
      var m :| 0 <= m < |dets| && Matches(name, confMin, dets[m]);
      assert dets[m] in ByName(dets, name, confMin);
    }
  }

  /** The `rows.sort(key=y1)` order; the sort is stable. */
  predicate ByTop(a: Det, b: Det) { a.y1 <= b.y1 }

  /** `rows_top_to_bottom`. */
  function RowsTopToBottom(dets: seq<Det>, name: string, confMin: real): seq<Det>
  {
    SortBy(ByName(dets, name, confMin), ByTop)
  }

  /** The rows are the matching detections, each once, ordered by their top edge. */
  lemma RowsTopToBottomProps(dets: seq<Det>, name: string, confMin: real)
    ensures var rows := RowsTopToBottom(dets, name, confMin);
            SortedBy(rows, ByTop) &&
            multiset(rows) == multiset(ByName(dets, name, confMin)) &&
            forall d :: d in rows <==> d in dets && Matches(name, confMin, d)
  {
    var picked := ByName(dets, name, confMin);
    var rows := RowsTopToBottom(dets, name, confMin);
    assert TotalPreorder(ByTop);
    SortBySorted(picked, ByTop);
    ByNameExact(dets, name, confMin);
    forall d ensures d in rows <==> d in picked {
      assert d in rows <==> d in multiset(rows);
      assert d in picked <==> d in multiset(picked);
    }
  }

  /** The centre of `d` lies inside the row's box, edges included. */
  predicate InRow(row: Det, d: Det)
  {
    row.x1 <= CenterX(d) <= row.x2 && row.y1 <= CenterY(d) <= row.y2
  }

  function InRowTest(row: Det): Det -> bool
  {
    d => InRow(row, d)
  }

  /** `_detections_in_row`. */
  method DetectionsInRow(dets: seq<Det>, row: Det, name: string, confMin: real) returns (matches: seq<Det>)
    ensures matches == Filter(ByName(dets, name, confMin), InRowTest(row))
  {
    var candidates := ByName(dets, name, confMin);
    matches := [];
    for i := 0 to |candidates|
      invariant matches == Filter(candidates[..i], InRowTest(row))
    {
      var d := candidates[i];
      var cx := 0.5 * (d.x1 + d.x2);
      var cy := 0.5 * (d.y1 + d.y2);
      FilterSnoc(candidates[..i], d, InRowTest(row));
      assert candidates[..i + 1] == candidates[..i] + [d];
      if row.x1 <= cx <= row.x2 && row.y1 <= cy <= row.y2 {
        matches := matches + [d];
      }
    }
    assert candidates[..|candidates|] == candidates;
  }

  /** A detection is in the row's list exactly when it matches and its centre lies in the row. */
  lemma DetectionsInRowExact(dets: seq<Det>, row: Det, name: string, confMin: real)
    ensures forall d :: d in Filter(ByName(dets, name, confMin), InRowTest(row)) <==>
                        d in dets && Matches(name, confMin, d) && InRow(row, d)
  {
    FilterExact(ByName(dets, name, confMin), InRowTest(row));
    ByNameExact(dets, name, confMin);
  }

  // ---------------------------------------------------------------------
  // Shop
  // ---------------------------------------------------------------------

  /** The shop items in the order the shop is walked: detection class and preference key. */
  const ShopOrder: seq<(string, string)> := [("shop_clock", "alarm_clock"), ("shop_star_piece", "star_pieces"), ("shop_parfait", "parfait")]

  /** The preference is set; a missing key counts as off. */
  function Wanted(prefs: map<string, bool>): ((string, string)) -> bool
  {
    (p: (string, string)) => p.1 in prefs && prefs[p.1]
  }

  /** `_shop_item_order`. */
  function ShopItemOrder(prefs: map<string, bool>): seq<(string, string)>
  {
    Filter(ShopOrder, Wanted(prefs))
  }

  /** An item's place in the walk. */
  function ShopRank(p: (string, string)): nat
  {
    if p.0 == "shop_clock" then 0 else if p.0 == "shop_star_piece" then 1 else 2
  }

  predicate ByShopRank(a: (string, string), b: (string, string)) { ShopRank(a) <= ShopRank(b) }

  /** The wanted items are exactly those of the walk whose preference is on, in the walk's order. */
  lemma ShopItemOrderExact(prefs: map<string, bool>)
    ensures forall p :: p in ShopItemOrder(prefs) <==> p in ShopOrder && p.1 in prefs && prefs[p.1]
    ensures SortedBy(ShopItemOrder(prefs), ByShopRank)
  {
    FilterExact(ShopOrder, Wanted(prefs));
    assert SortedBy(ShopOrder, ByShopRank);
    FilterSorted(ShopOrder, ByShopRank, Wanted(prefs));
  }

  // ---------------------------------------------------------------------
  // Repeated clicks
  // ---------------------------------------------------------------------

  /**
   * `click_button_loop`: `attempt(k)` is whether the `k`-th wait-and-click
   * succeeded. The count is the run of leading successes, capped at
   * `maxClicks`.
   */
  method ClickButtonLoop(maxClicks: int, attempt: nat -> bool) returns (done: nat)
    ensures done <= (if maxClicks > 0 then maxClicks else 0)
    ensures forall k :: 0 <= k < done ==> attempt(k)
    ensures done < maxClicks ==> !attempt(done)
  {
    done := 0;
    while done < maxClicks
      invariant done <= (if maxClicks > 0 then maxClicks else 0)
      invariant forall k :: 0 <= k < done ==> attempt(k)
      decreases maxClicks - done
    {
      var ok := attempt(done);
      if !ok {
        break;
      }
      done := done + 1;
    }
  }
}
