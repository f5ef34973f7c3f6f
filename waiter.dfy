/**
 * The waiter's click cascade: a lone candidate is clicked at once, else
 * the lowest candidate on screen when asked, else the candidate whose OCR
 * text best matches the wanted texts; a candidate whose text matches a
 * forbidden phrase is never clicked.
 */
module Waiter {
  import opened Wrappers
  import opened Strings
  import opened Sorting
  import opened Detections

  // ---------------------------------------------------------------------
  // Text lists
  // ---------------------------------------------------------------------

  /** An entry `_norm_seq` keeps: one with something besides whitespace. */
  predicate Meaningful(s: string) { Strip(s) != "" }

  /** One entry as `_norm_seq` keeps it: trimmed and lower-cased, or dropped when blank. */
  function NormEntry(s: string): Option<string>
  {
    if Meaningful(s) then Some(Lower(Strip(s))) else None
  }

  /** Non-empty, trimmed and lower-cased. */
  predicate NormalEntry(s: string)
  {
    s != "" && NoEdgeSpace(s) && Lower(s) == s
  }

  lemma NormEntryNormal(s: string)
    ensures NormEntry(s).Some? ==> NormalEntry(NormEntry(s).value)
  {
    if Meaningful(s) {
      LowerIdempotent(Strip(s));
      LowerKeepsEdges(Strip(s));
    }
  }

  /** The kept entries, trimmed and lower-cased, in order. */
  function NormEntries(xs: seq<string>): (r: seq<string>)
    ensures |r| <= |xs|
    ensures forall i :: 0 <= i < |r| ==> NormalEntry(r[i])
    ensures |r| == 0 <==> forall i :: 0 <= i < |xs| ==> !Meaningful(xs[i])
  {
    var r := FilterMap(xs, NormEntry);
    FilterMapLength(xs, NormEntry);
    FilterMapEmpty(xs, NormEntry);
    FilterMapFrom(xs, NormEntry);
    forall i | 0 <= i < |r| ensures NormalEntry(r[i]) {
      var j :| 0 <= j < |xs| && NormEntry(xs[j]) == Some(r[i]);
      NormEntryNormal(xs[j]);
    }
    r
  }

  /** Lower-casing changes no whitespace, so a trimmed text stays trimmed. */
  lemma LowerKeepsEdges(s: string)
    requires NoEdgeSpace(s)
    ensures NoEdgeSpace(Lower(s))
  {
  }

  /** `_norm_seq`: none for a missing list or one with nothing but blank entries. */
  function NormSeq(xs: Option<seq<string>>): (r: Option<seq<string>>)
    ensures r.None? <==> xs.None? || forall i :: 0 <= i < |xs.value| ==> !Meaningful(xs.value[i])
    ensures r.Some? ==> |r.value| > 0 && |r.value| <= |xs.value| && forall i :: 0 <= i < |r.value| ==> NormalEntry(r.value[i])
  {
    if xs.None? then None
    else
      var out := NormEntries(xs.value);
      if |out| == 0 then None else Some(out)
  }

  /** Entries that are already trimmed and lower-cased come back unchanged. */
  lemma NormEntriesFixed(xs: seq<string>)
    requires forall i :: 0 <= i < |xs| ==> NormalEntry(xs[i])
    ensures NormEntries(xs) == xs
  {
    forall i | 0 <= i < |xs| ensures NormEntry(xs[i]) == Some(xs[i]) {
      NormalEntryKept(xs[i]);
    }
    FilterMapFixed(xs, NormEntry);
  }

  lemma NormalEntryKept(x: string)
    requires NormalEntry(x)
    ensures Meaningful(x) && Lower(Strip(x)) == x
  {
    StripNoEdge(x);
  }

  /** Normalising a normalised list changes nothing, so `_pick_by_text` may normalise again. */
  lemma NormSeqIdempotent(xs: Option<seq<string>>)
    ensures NormSeq(NormSeq(xs)) == NormSeq(xs)
  {
    var r := NormSeq(xs);
    if r.Some? {
      NormEntriesFixed(r.value);
    }
  }

  // ---------------------------------------------------------------------
  // Forbidden texts
  // ---------------------------------------------------------------------

  /** The OCR engine, when one is configured, with what it reads inside each detection's box. */
  datatype Ocr = Ocr(present: bool, read: Det -> string)

  /** The text read matches some forbidden phrase; `fuzzy` is `fuzzy_ratio`. */
  predicate ForbiddenRead(raw: string, forbid: Option<seq<string>>, threshold: real, fuzzy: (string, string) -> real)
  {
    var t := Lower(Strip(raw));
    forbid.Some? && t != "" && exists k :: 0 <= k < |forbid.value| && fuzzy(t, forbid.value[k]) >= threshold
  }

  /** `_is_forbidden`: never without forbidden phrases or without OCR. */
  predicate Forbidden(ocr: Ocr, d: Det, forbid: Option<seq<string>>, threshold: real, fuzzy: (string, string) -> real)
  {
    ocr.present && ForbiddenRead(ocr.read(d), forbid, threshold, fuzzy)
  }

  function ForbiddenTest(ocr: Ocr, forbid: Option<seq<string>>, threshold: real, fuzzy: (string, string) -> real): Det -> bool
  {
    d => Forbidden(ocr, d, forbid, threshold, fuzzy)
  }

  /** The scan over the forbidden phrases, stopping at the first close one. */
  method MatchesForbidden(t: string, forbid: Option<seq<string>>, threshold: real, fuzzy: (string, string) -> real)
    returns (hit: bool)
    ensures hit <==> forbid.Some? && exists k :: 0 <= k < |forbid.value| && fuzzy(t, forbid.value[k]) >= threshold
  {
    if forbid.None? {
      return false;
    }
    for i := 0 to |forbid.value|
      invariant forall k :: 0 <= k < i ==> fuzzy(t, forbid.value[k]) < threshold
    {
      var score := fuzzy(t, forbid.value[i]);
      if score >= threshold {
        return true;
      }
    }
    return false;
  }

  /** `_is_forbidden`. */
  method IsForbidden(ocr: Ocr, d: Det, forbid: Option<seq<string>>, threshold: real, fuzzy: (string, string) -> real)
    returns (b: bool)
    ensures b == Forbidden(ocr, d, forbid, threshold, fuzzy)
  {
    if forbid.None? || !ocr.present {
      return false;
    }
    var txt := Lower(Strip(ocr.read(d)));
    if txt == "" {
      return false;
    }
    b := MatchesForbidden(txt, forbid, threshold, fuzzy);
  }

  // ---------------------------------------------------------------------
  // Choosing by text
  // ---------------------------------------------------------------------

  function RMax(a: real, b: real): real { if a >= b then a else b }

  /** `max(fuzzy_ratio(txt, t) for t in texts)`. */
  function MaxRatio(txt: string, texts: seq<string>, fuzzy: (string, string) -> real): (m: real)
    requires |texts| > 0
    ensures forall k :: 0 <= k < |texts| ==> fuzzy(txt, texts[k]) <= m
    ensures exists k :: 0 <= k < |texts| && m == fuzzy(txt, texts[k])
  {
    if |texts| == 1 then fuzzy(txt, texts[0])
    else
      var init := texts[..|texts| - 1];
      var m := MaxRatio(txt, init, fuzzy);
      assert forall k :: 0 <= k < |init| ==> init[k] == texts[k];
      RMax(m, fuzzy(txt, texts[|texts| - 1]))
  }

  /** Some wanted text equals, ignoring case, one of the space-separated pieces of the read text. */
  predicate DirectHit(toks: seq<string>, texts: seq<string>)
  {
    exists i, j :: 0 <= i < |texts| && 0 <= j < |toks| && Upper(texts[i]) == Upper(toks[j])
  }

  const DirectScore: real := 0.95

  /** What one candidate is worth to `_pick_by_text`: nothing when its text is blank or forbidden. */
  function CandidateScore(raw: string, texts: seq<string>, forbid: Option<seq<string>>, forbidThreshold: real,
                          fuzzy: (string, string) -> real): (s: real)
    requires |texts| > 0
    ensures Strip(raw) == "" || ForbiddenRead(raw, forbid, forbidThreshold, fuzzy) ==> s == 0.0
    ensures Strip(raw) != "" && !ForbiddenRead(raw, forbid, forbidThreshold, fuzzy) ==>
              s >= MaxRatio(Strip(raw), texts, fuzzy) &&
              (DirectHit(Split(Strip(raw), ' '), texts) ==> s >= DirectScore) &&
              (s == MaxRatio(Strip(raw), texts, fuzzy) || (s == DirectScore && DirectHit(Split(Strip(raw), ' '), texts)))
  {
    var txt := Strip(raw);
    if txt == "" || ForbiddenRead(raw, forbid, forbidThreshold, fuzzy) then 0.0
    else
      var m := MaxRatio(txt, texts, fuzzy);
      if DirectHit(Split(txt, ' '), texts) && m < DirectScore then DirectScore else m
  }

  function TextScore(ocr: Ocr, texts: seq<string>, forbid: Option<seq<string>>, forbidThreshold: real,
                     fuzzy: (string, string) -> real): Det -> real
    requires |texts| > 0
  {
    d => CandidateScore(ocr.read(d), texts, forbid, forbidThreshold, fuzzy)
  }

  /** The first candidate of top score, kept only when it reaches the threshold. */
  function TextPick(cand: seq<Det>, texts: seq<string>, threshold: real, ocr: Ocr, forbid: Option<seq<string>>,
                    forbidThreshold: real, fuzzy: (string, string) -> real): (Option<Det>, real)
    requires |texts| > 0
  {
    var m := FirstMax(cand, TextScore(ocr, texts, forbid, forbidThreshold, fuzzy));
    if m.0.Some? && m.1 >= threshold then m else (None, m.1)
  }

  /**
   * A text pick is a candidate whose text is not blank and not forbidden,
   * that reaches the threshold, and that no candidate outscores; the best
   * score is reported even when nothing is picked.
   */
  lemma TextPickSound(cand: seq<Det>, texts: seq<string>, threshold: real, ocr: Ocr, forbid: Option<seq<string>>,
                      forbidThreshold: real, fuzzy: (string, string) -> real)
    requires |texts| > 0
    ensures var r := TextPick(cand, texts, threshold, ocr, forbid, forbidThreshold, fuzzy);
            var score := TextScore(ocr, texts, forbid, forbidThreshold, fuzzy);
            (forall i :: 0 <= i < |cand| ==> score(cand[i]) <= r.1) &&
            (r.0.Some? ==> r.0.value in cand && r.1 >= threshold && r.1 > 0.0 && score(r.0.value) == r.1 &&
                           Strip(ocr.read(r.0.value)) != "" && !ForbiddenRead(ocr.read(r.0.value), forbid, forbidThreshold, fuzzy))
  {
  }

  /** A candidate that reads a wanted text as one of its words scores at least 0.95, unless forbidden. */
  lemma DirectMatchScores(raw: string, texts: seq<string>, forbid: Option<seq<string>>, forbidThreshold: real,
                          fuzzy: (string, string) -> real, i: nat, j: nat)
    requires i < |texts| && j < |Split(Strip(raw), ' ')|
    requires Upper(texts[i]) == Upper(Split(Strip(raw), ' ')[j])
    requires Strip(raw) != "" && !ForbiddenRead(raw, forbid, forbidThreshold, fuzzy)
    ensures CandidateScore(raw, texts, forbid, forbidThreshold, fuzzy) >= DirectScore
  {
  }

  /** The two nested loops over wanted texts and words. */
  method HasDirectMatch(toks: seq<string>, texts: seq<string>) returns (hit: bool)
    ensures hit == DirectHit(toks, texts)
  {
    hit := false;
    for i := 0 to |texts|
      invariant hit <==> exists a, b :: 0 <= a < i && 0 <= b < |toks| && Upper(texts[a]) == Upper(toks[b])
    {
      for j := 0 to |toks|
        invariant hit <==> (exists a, b :: 0 <= a < i && 0 <= b < |toks| && Upper(texts[a]) == Upper(toks[b])) ||
                           (exists b :: 0 <= b < j && Upper(texts[i]) == Upper(toks[b]))
      {
        if Upper(texts[i]) == Upper(toks[j]) {
          hit := true;
        }
      }
    }
  }

  /** One candidate of `_pick_by_text`: the best so far moves to it when its text scores higher. */
  method ConsiderCandidate(d: Det, raw: string, ts: seq<string>, forbid: Option<seq<string>>, forbidThreshold: real,
                           fuzzy: (string, string) -> real, pick0: Option<Det>, best0: real)
    returns (pick: Option<Det>, best: real)
    requires |ts| > 0 && best0 >= 0.0
    ensures var c := CandidateScore(raw, ts, forbid, forbidThreshold, fuzzy);
            (pick, best) == if c > best0 then (Some(d), c) else (pick0, best0)
  {
    pick, best := pick0, best0;
    var txt := Strip(raw);
    if txt == "" {
      return;
    }
    var forbidden := MatchesForbidden(Lower(txt), forbid, forbidThreshold, fuzzy);
    if forbidden {
      return;
    }
    var direct := HasDirectMatch(Split(txt, ' '), ts);
    if direct && DirectScore > best {
      pick, best := Some(d), DirectScore;
    }
    var s := MaxRatio(txt, ts, fuzzy);
    if s > best {
      pick, best := Some(d), s;
    }
  }

  /** `_pick_by_text`. */
  method PickByText(cand: seq<Det>, texts: Option<seq<string>>, threshold: real, ocr: Ocr, forbid: Option<seq<string>>,
                    forbidThreshold: real, fuzzy: (string, string) -> real)
    returns (pick: Option<Det>, best: real)
    ensures NormSeq(texts).None? || !ocr.present ==> pick.None? && best == 0.0
    ensures NormSeq(texts).Some? && ocr.present ==>
              (pick, best) == TextPick(cand, NormSeq(texts).value, threshold, ocr, forbid, forbidThreshold, fuzzy)
  {
    var normTexts := NormSeq(texts);
    if normTexts.None? || !ocr.present {
      return None, 0.0;
    }
    var ts := normTexts.value;
    var score := TextScore(ocr, ts, forbid, forbidThreshold, fuzzy);
    pick, best := None, 0.0;
    for i := 0 to |cand|
      invariant (pick, best) == FirstMax(cand[..i], score)
    {
      assert cand[..i + 1][..i] == cand[..i];
      var d := cand[i];
      pick, best := ConsiderCandidate(d, ocr.read(d), ts, forbid, forbidThreshold, fuzzy, pick, best);
    }
    assert cand[..|cand|] == cand;
    if pick.Some? && best >= threshold {
      return pick, best;
    }
    return None, best;
  }

  // ---------------------------------------------------------------------
  // The cascade
  // ---------------------------------------------------------------------

  /** The order `sorted(cand, key=y-centre, reverse=True)` gives: lowest on screen first, ties in input order. */
  predicate LowerOnScreen(a: Det, b: Det) { CenterY(a) >= CenterY(b) }

  /** The first candidate that is not forbidden. */
  function FirstAllowed(ds: seq<Det>, forbidden: Det -> bool): (r: Option<Det>)
    ensures r.None? <==> forall i :: 0 <= i < |ds| ==> forbidden(ds[i])
    ensures r.Some? ==> exists k :: 0 <= k < |ds| && ds[k] == r.value && !forbidden(ds[k]) &&
                                   forall j :: 0 <= j < k ==> forbidden(ds[j])
  {
    if |ds| == 0 then None
    else if !forbidden(ds[0]) then Some(ds[0])
    else
      var r := FirstAllowed(ds[1..], forbidden);
      assert forall i :: 0 <= i < |ds| - 1 ==> ds[1..][i] == ds[i + 1];
      r
  }

  /** Over candidates ordered lowest first, every candidate strictly lower than the first allowed one is forbidden. */
  lemma FirstAllowedLowest(ordered: seq<Det>, forbidden: Det -> bool)
    requires SortedBy(ordered, LowerOnScreen)
    ensures var r := FirstAllowed(ordered, forbidden);
            r.Some? ==> forall m :: 0 <= m < |ordered| && CenterY(ordered[m]) > CenterY(r.value) ==> forbidden(ordered[m])
  {
    var r := FirstAllowed(ordered, forbidden);
    if r.Some? {
      var k :| 0 <= k < |ordered| && ordered[k] == r.value && !forbidden(ordered[k]) &&
               forall j :: 0 <= j < k ==> forbidden(ordered[j]);
      forall m | k < m < |ordered| ensures CenterY(ordered[m]) <= CenterY(ordered[k]) {
        assert LowerOnScreen(ordered[k], ordered[m]);
      }
    }
  }

  /** The same elements, in any order. */
  lemma SameMembers(xs: seq<Det>, ys: seq<Det>)
    requires multiset(xs) == multiset(ys)
    ensures forall c :: c in xs <==> c in ys
  {
    forall c ensures c in xs <==> c in ys {
      assert c in xs <==> c in multiset(xs);
      assert c in ys <==> c in multiset(ys);
    }
  }

  /** The bottom-most preference clicks the lowest allowed candidate: every candidate strictly lower is forbidden. */
  lemma BottomPickIsLowest(cand: seq<Det>, forbidden: Det -> bool)
    ensures var r := FirstAllowed(SortBy(cand, LowerOnScreen), forbidden);
            (r.None? <==> forall c :: c in cand ==> forbidden(c)) &&
            (r.Some? ==> r.value in cand && !forbidden(r.value) &&
                         forall c :: c in cand && CenterY(c) > CenterY(r.value) ==> forbidden(c))
  {
    var ordered := SortBy(cand, LowerOnScreen);
    assert TotalPreorder(LowerOnScreen);
    SortBySorted(cand, LowerOnScreen);
    SameMembers(cand, ordered);
    FirstAllowedLowest(ordered, forbidden);
  }

  /** What the caller asks for: wanted and forbidden texts with their thresholds, and the greedy options. */
  datatype Request = Request(texts: Option<seq<string>>, threshold: real, preferBottom: bool, allowGreedy: bool,
                             forbid: Option<seq<string>>, forbidThreshold: real)

  /** The cascade of `click_when` and `try_click_once` on one snapshot's candidates. */
  function Cascade(cand: seq<Det>, req: Request, ocr: Ocr, fuzzy: (string, string) -> real): (r: Option<Det>)
    ensures r.Some? ==> r.value in cand && !Forbidden(ocr, r.value, NormSeq(req.forbid), req.forbidThreshold, fuzzy)
    ensures |cand| == 0 ==> r.None?
  {
    var forbid := NormSeq(req.forbid);
    var texts := NormSeq(req.texts);
    var isForbidden := ForbiddenTest(ocr, forbid, req.forbidThreshold, fuzzy);
    if |cand| == 0 then None
    else if |cand| == 1 && req.allowGreedy && !isForbidden(cand[0]) then Some(cand[0])
    else
      var bottom := if req.preferBottom && req.allowGreedy then FirstAllowed(SortBy(cand, LowerOnScreen), isForbidden) else None;
      if bottom.Some? then
        BottomPickIsLowest(cand, isForbidden);
        bottom
      else if texts.Some? && ocr.present then
        TextPickSound(cand, texts.value, req.threshold, ocr, forbid, req.forbidThreshold, fuzzy);
        TextPick(cand, texts.value, req.threshold, ocr, forbid, req.forbidThreshold, fuzzy).0
      else None
  }

  /** Stage 2: the first allowed candidate from the bottom up. */
  method BottomMost(cand: seq<Det>, ocr: Ocr, forbid: Option<seq<string>>, forbidThreshold: real, fuzzy: (string, string) -> real)
    returns (chosen: Option<Det>)
    ensures chosen == FirstAllowed(SortBy(cand, LowerOnScreen), ForbiddenTest(ocr, forbid, forbidThreshold, fuzzy))
  {
    var ordered := SortBy(cand, LowerOnScreen);
    var test := ForbiddenTest(ocr, forbid, forbidThreshold, fuzzy);
    for i := 0 to |ordered|
      invariant FirstAllowed(ordered, test) == FirstAllowed(ordered[i..], test)
    {
      var f := IsForbidden(ocr, ordered[i], forbid, forbidThreshold, fuzzy);
      if !f {
        return Some(ordered[i]);
      }
      assert ordered[i..][1..] == ordered[i + 1..];
    }
    return None;
  }

  /** The cascade as the source runs it on one snapshot. */
  method RunCascade(cand: seq<Det>, req: Request, ocr: Ocr, fuzzy: (string, string) -> real) returns (pick: Option<Det>)
    ensures pick == Cascade(cand, req, ocr, fuzzy)
  {
    var texts := NormSeq(req.texts);
    var forbid := NormSeq(req.forbid);
    if |cand| == 0 {
      return None;
    }
    if |cand| == 1 && req.allowGreedy {
      var f := IsForbidden(ocr, cand[0], forbid, req.forbidThreshold, fuzzy);
      if !f {
        return Some(cand[0]);
      }
    }
    if req.preferBottom && req.allowGreedy {
      var chosen := BottomMost(cand, ocr, forbid, req.forbidThreshold, fuzzy);
      if chosen.Some? {
        return chosen;
      }
    }
    if texts.Some? && ocr.present {
      NormSeqIdempotent(req.texts);
      var best, bestScore := PickByText(cand, texts, req.threshold, ocr, forbid, req.forbidThreshold, fuzzy);
      if best.Some? {
        return best;
      }
    }
    return None;
  }

  // ---------------------------------------------------------------------
  // Polling
  // ---------------------------------------------------------------------

  /** One poll: the candidates of the requested classes and what OCR reads in that snapshot. */
  datatype Frame = Frame(cand: seq<Det>, ocr: Ocr)

  datatype WaitResult = BadClasses | Clicked(det: Det) | TimedOut

  /** What the cascade picks in one poll. */
  function PollPick(req: Request, fuzzy: (string, string) -> real): Frame -> Option<Det>
  {
    (f: Frame) => Cascade(f.cand, req, f.ocr, fuzzy)
  }

  /** The first poll whose pick is something, with that pick. */
  function FirstPick(frames: seq<Frame>, pick: Frame -> Option<Det>): (r: WaitResult)
    ensures r != BadClasses
    ensures r.Clicked? <==> exists k :: 0 <= k < |frames| && pick(frames[k]).Some?
    ensures r.Clicked? ==> exists k :: 0 <= k < |frames| && pick(frames[k]) == Some(r.det) &&
                                       forall j :: 0 <= j < k ==> pick(frames[j]).None?
  {
    if |frames| == 0 then TimedOut
    else if pick(frames[0]).Some? then Clicked(pick(frames[0]).value)
    else
      var r := FirstPick(frames[1..], pick);
      assert forall k :: 0 <= k < |frames| - 1 ==> frames[1..][k] == frames[k + 1];
      r
  }

  /** The first poll at which the cascade finds something to click. */
  function FirstClick(frames: seq<Frame>, req: Request, fuzzy: (string, string) -> real): (r: WaitResult)
    ensures r != BadClasses
    ensures r.Clicked? <==> exists k :: 0 <= k < |frames| && Cascade(frames[k].cand, req, frames[k].ocr, fuzzy).Some?
    ensures r.Clicked? ==> exists k :: 0 <= k < |frames| && Cascade(frames[k].cand, req, frames[k].ocr, fuzzy) == Some(r.det) &&
                                       r.det in frames[k].cand &&
                                       forall j :: 0 <= j < k ==> Cascade(frames[j].cand, req, frames[j].ocr, fuzzy).None?
  {
    var pick := PollPick(req, fuzzy);
    assert forall k :: 0 <= k < |frames| ==> pick(frames[k]) == Cascade(frames[k].cand, req, frames[k].ocr, fuzzy);
    FirstPick(frames, pick)
  }

  /**
   * `click_when`: a `ValueError` for an empty class list; otherwise poll
   * until the cascade clicks something, or time out. `frames` are the
   * snapshots taken before the deadline.
   */
  method ClickWhen(classes: seq<string>, frames: seq<Frame>, req: Request, fuzzy: (string, string) -> real)
    returns (r: WaitResult)
    ensures |classes| == 0 ==> r == BadClasses
    ensures |classes| > 0 ==> r == FirstClick(frames, req, fuzzy)
  {
    if |classes| == 0 {
      return BadClasses;
    }
    for i := 0 to |frames|
      invariant FirstClick(frames, req, fuzzy) == FirstPick(frames[i..], PollPick(req, fuzzy))
    {
      var pick := RunCascade(frames[i].cand, req, frames[i].ocr, fuzzy);
      assert PollPick(req, fuzzy)(frames[i..][0]) == pick;
      if pick.Some? {
        return Clicked(pick.value);
      }
      assert frames[i..][1..] == frames[i + 1..];
    }
    return TimedOut;
  }

  /** `try_click_once`: one snapshot, no waiting; an empty class list clicks nothing. */
  method TryClickOnce(classes: seq<string>, frame: Frame, req: Request, fuzzy: (string, string) -> real)
    returns (clicked: bool)
    ensures clicked <==> |classes| > 0 && Cascade(frame.cand, req, frame.ocr, fuzzy).Some?
  {
    if |classes| == 0 {
      return false;
    }
    var pick := RunCascade(frame.cand, req, frame.ocr, fuzzy);
    return pick.Some?;
  }
}
