/**
 * OCR text helpers: normalisation to lower-case alphanumeric tokens,
 * race-card misread fixes, digit-for-letter repairs in skill titles, and
 * fuzzy matching against a similarity ratio.
 */
module OcrText {
  import opened Wrappers
  import opened Strings
  import opened Sorting

  /**
   * The Unicode database operations the normaliser calls: NFKD
   * decomposition, the combining-mark test, and full `str.lower()`.
   */
  datatype UnicodeOps = UnicodeOps(nfkd: string -> string, combining: char -> bool, lower: string -> string)

  /** The look-alike table passed to `str.maketrans`. */
  function Lookalike(c: char): char
  {
    match c
    case 'Ⅰ' => '1'  case 'Ⅱ' => '2'  case 'Ⅲ' => '3'  case 'Ⅳ' => '4'  case 'Ⅴ' => '5'
    case 'Ｉ' => '1'  case 'ｌ' => '1'  case 'l' => '1'  case 'I' => '1'  case '|' => '1'  case '!' => '1'
    case '０' => '0'  case 'Ｏ' => '0'  case '○' => '0'  case 'o' => '0'  case 'O' => '0'
    case '５' => '5'  case 'Ｓ' => 's'  case 'S' => 's'  case '5' => 's'
    case '８' => '8'  case 'Ｂ' => 'b'  case 'B' => 'b'  case '8' => 'b'
    case _ => c
  }

  function Translate(s: string): (r: string)
    ensures |r| == |s| && forall i :: 0 <= i < |s| ==> r[i] == Lookalike(s[i])
  {
    seq(|s|, i requires 0 <= i < |s| => Lookalike(s[i]))
  }

  /** The characters the pattern `[a-z0-9]` keeps. */
  predicate Alnum(c: char) { IsLowerAscii(c) || IsDigit(c) }

  /** What a normalised string may hold. */
  predicate OcrChar(c: char) { Alnum(c) || c == ' ' }

  function DropCombining(s: string, combining: char -> bool): (r: string)
    ensures |r| <= |s|
  {
    if |s| == 0 then "" else (if combining(s[0]) then "" else [s[0]]) + DropCombining(s[1..], combining)
  }

  /** `re.sub(r"[^a-z0-9]+", " ", s)` up to the width of each blank run, which the next step collapses. */
  function Blank(s: string): (r: string)
    ensures |r| == |s| && AllOf(r, OcrChar)
    ensures forall i :: 0 <= i < |s| ==> r[i] == if Alnum(s[i]) then s[i] else ' '
  {
    seq(|s|, i requires 0 <= i < |s| => if Alnum(s[i]) then s[i] else ' ')
  }

  /** The words of a blanked string: runs of `[a-z0-9]`. */
  function OcrWords(s: string, u: UnicodeOps): (ws: seq<string>)
    ensures forall i :: 0 <= i < |ws| ==> IsWord(ws[i]) && AllOf(ws[i], Alnum)
  {
    var b := Blank(u.lower(Translate(DropCombining(u.nfkd(s), u.combining))));
    WordsAllOf(b, OcrChar);
    var ws := Words(b);
    assert forall i, k :: 0 <= i < |ws| && 0 <= k < |ws[i]| ==> OcrChar(ws[i][k]) && !IsSpace(ws[i][k]);
    ws
  }

  /** `_normalize_ocr` (and `normalize_ocr_text`). */
  function NormalizeOcr(s: string, u: UnicodeOps): string
  {
    if s == "" then "" else Join(" ", OcrWords(s, u))
  }

  /** A normalised string holds only a–z, 0–9 and single inner spaces. */
  predicate Normalized(s: string)
  {
    AllOf(s, OcrChar) && NoEdgeSpace(s) && SingleSpaced(s)
  }

  lemma NormalizeOcrShape(s: string, u: UnicodeOps)
    ensures Normalized(NormalizeOcr(s, u))
  {
    if s != "" {
      var ws := OcrWords(s, u);
      assert forall i, k :: 0 <= i < |ws| && 0 <= k < |ws[i]| ==> OcrChar(ws[i][k]);
      JoinAllOf(" ", ws, OcrChar);
      JoinWordsShape(ws);
    }
  }

  /** `tokenize_ocr_text`. */
  function TokenizeOcr(s: string, u: UnicodeOps): (ts: seq<string>)
    ensures forall i :: 0 <= i < |ts| ==> IsWord(ts[i]) && AllOf(ts[i], Alnum)
  {
    var norm := NormalizeOcr(s, u);
    if norm == "" then [] else
      WordsJoin(OcrWords(s, u));
      Words(norm)
  }

  /** The tokens joined by one space give the normalised text back, and there are none exactly when it is empty. */
  lemma TokenizeJoin(s: string, u: UnicodeOps)
    ensures Join(" ", TokenizeOcr(s, u)) == NormalizeOcr(s, u)
    ensures TokenizeOcr(s, u) == [] <==> NormalizeOcr(s, u) == ""
  {
    var norm := NormalizeOcr(s, u);
    if s != "" {
      var ws := OcrWords(s, u);
      WordsJoin(ws);
      JoinWordsShape(ws);
    }
  }

  // ---------------------------------------------------------------------
  // Race-card fixes. In normalised text every `\b` falls at a token edge,
  // so each substitution is a rewrite of whole tokens.
  // ---------------------------------------------------------------------

  /** One pass replacing every token by `f` of it. */
  function MapTokens(ws: seq<string>, f: string -> string): (r: seq<string>)
    ensures |r| == |ws| && forall i :: 0 <= i < |ws| ==> r[i] == f(ws[i])
  {
    seq(|ws|, i requires 0 <= i < |ws| => f(ws[i]))
  }

  /** `\bdeer(?:ed)?\b` and then `\bdirf\b` to "dirt". */
  function DeerToDirt(w: string): string { if w == "deer" || w == "deered" then "dirt" else w }
  function DirfToDirt(w: string): string { if w == "dirf" then "dirt" else w }
  /** `\bwar\b` to "var". */
  function WarToVar(w: string): string { if w == "war" then "var" else w }
  /** `\bvar(?:i|ie|ies|les)?\b` to "varies". */
  function VarToVaries(w: string): string
  {
    if w in {"var", "vari", "varie", "varies", "varles"} then "varies" else w
  }

  /** `\b<head>\s+barriers?\b` to "varies", leftmost first. */
  function MergeBarrier(ws: seq<string>, head: string): (r: seq<string>)
    ensures |r| <= |ws|
    ensures forall i :: 0 <= i < |r| ==> r[i] in ws || r[i] == "varies"
    ensures head !in ws ==> r == ws
  {
    if |ws| == 0 then []
    else if ws[0] == head && |ws| >= 2 && ws[1] in {"barrier", "barriers"} then ["varies"] + MergeBarrier(ws[2..], head)
    else [ws[0]] + MergeBarrier(ws[1..], head)
  }

  /** The six substitutions of `normalize_race_card_text`, in order. */
  function RaceCardTokens(ws: seq<string>): seq<string>
  {
    var t1 := MapTokens(ws, DeerToDirt);
    var t2 := MapTokens(t1, DirfToDirt);
    var t3 := MergeBarrier(t2, "war");
    var t4 := MergeBarrier(t3, "var");
    var t5 := MapTokens(t4, WarToVar);
    MapTokens(t5, VarToVaries)
  }

  /** `normalize_race_card_text`. */
  function NormalizeRaceCard(s: string, u: UnicodeOps): string
  {
    var toks := TokenizeOcr(s, u);
    if toks == [] then "" else Join(" ", RaceCardTokens(toks))
  }

  /** Misread tokens that never survive the race-card fixes. */
  const Misreads: set<string> := {"deer", "deered", "dirf", "war", "var", "vari", "varie", "varles"}

  /** A normalised token. */
  predicate Token(w: string) { IsWord(w) && AllOf(w, OcrChar) }

  predicate NoDirtMisread(w: string) { Token(w) && w != "deer" && w != "deered" && w != "dirf" }
  predicate NoWar(w: string) { NoDirtMisread(w) && w != "war" }
  predicate NoMisread(w: string) { Token(w) && w !in Misreads }

  lemma DirtPasses(ws: seq<string>)
    requires forall i :: 0 <= i < |ws| ==> Token(ws[i])
    ensures forall i :: 0 <= i < |ws| ==> NoDirtMisread(MapTokens(MapTokens(ws, DeerToDirt), DirfToDirt)[i])
  {
    assert Token("dirt");
  }

  lemma BarrierPass(ws: seq<string>, head: string)
    requires forall i :: 0 <= i < |ws| ==> NoDirtMisread(ws[i])
    ensures forall i :: 0 <= i < |MergeBarrier(ws, head)| ==> NoDirtMisread(MergeBarrier(ws, head)[i])
  {
    assert NoDirtMisread("varies");
    var r := MergeBarrier(ws, head);
    forall i | 0 <= i < |r| ensures NoDirtMisread(r[i]) {
      if r[i] != "varies" {
        var j :| 0 <= j < |ws| && ws[j] == r[i];
      }
    }
  }

  lemma WarPass(ws: seq<string>)
    requires forall i :: 0 <= i < |ws| ==> NoDirtMisread(ws[i])
    ensures forall i :: 0 <= i < |ws| ==> NoWar(MapTokens(ws, WarToVar)[i])
  {
    assert NoDirtMisread("var");
  }

  lemma VarPass(ws: seq<string>)
    requires forall i :: 0 <= i < |ws| ==> NoWar(ws[i])
    ensures forall i :: 0 <= i < |ws| ==> NoMisread(MapTokens(ws, VarToVaries)[i])
  {
    assert Token("varies");
  }

  lemma RaceCardTokensClean(ws: seq<string>)
    requires forall i :: 0 <= i < |ws| ==> Token(ws[i])
    ensures forall i :: 0 <= i < |RaceCardTokens(ws)| ==> NoMisread(RaceCardTokens(ws)[i])
  {
    var t2 := MapTokens(MapTokens(ws, DeerToDirt), DirfToDirt);
    DirtPasses(ws);
    var t3 := MergeBarrier(t2, "war");
    BarrierPass(t2, "war");
    var t4 := MergeBarrier(t3, "var");
    BarrierPass(t3, "var");
    WarPass(t4);
    VarPass(MapTokens(t4, WarToVar));
  }

  lemma TokensAreTokens(s: string, u: UnicodeOps)
    ensures forall i :: 0 <= i < |TokenizeOcr(s, u)| ==> Token(TokenizeOcr(s, u)[i])
  {
    var ts := TokenizeOcr(s, u);
    assert forall i, k :: 0 <= i < |ts| && 0 <= k < |ts[i]| ==> Alnum(ts[i][k]);
  }

  /** Tokens joined by one space form normalised text that splits back into them. */
  lemma JoinTokens(r: seq<string>)
    requires forall i :: 0 <= i < |r| ==> Token(r[i])
    ensures Normalized(Join(" ", r)) && Words(Join(" ", r)) == r
  {
    assert forall i :: 0 <= i < |r| ==> IsWord(r[i]) && AllOf(r[i], OcrChar);
    assert AllOf(" ", OcrChar) by {
      assert " "[0] == ' ';
    }
    WordsJoin(r);
    JoinWordsShape(r);
    JoinAllOf(" ", r, OcrChar);
  }

  /** The fixed text is normalised, and none of its tokens is a known misread. */
  lemma RaceCardClean(s: string, u: UnicodeOps)
    ensures Normalized(NormalizeRaceCard(s, u))
    ensures forall w :: w in Words(NormalizeRaceCard(s, u)) ==> w !in Misreads
  {
    var toks := TokenizeOcr(s, u);
    if toks != [] {
      TokensAreTokens(s, u);
      var r := RaceCardTokens(toks);
      RaceCardTokensClean(toks);
      JoinTokens(r);
      forall w | w in Words(NormalizeRaceCard(s, u)) ensures w !in Misreads {
        var i :| 0 <= i < |r| && r[i] == w;
        assert NoMisread(r[i]);
      }
    }
  }

  /** Text with no misread token passes through unchanged. */
  lemma RaceCardKeepsClean(s: string, u: UnicodeOps)
    requires forall w :: w in TokenizeOcr(s, u) ==> w !in Misreads
    ensures NormalizeRaceCard(s, u) == NormalizeOcr(s, u)
  {
    var toks := TokenizeOcr(s, u);
    TokenizeJoin(s, u);
    var t1 := MapTokens(toks, DeerToDirt);
    assert t1 == toks;
    var t2 := MapTokens(t1, DirfToDirt);
    assert t2 == toks;
    var t5 := MapTokens(toks, WarToVar);
    assert t5 == toks;
    assert MapTokens(t5, VarToVaries) == toks;
  }

  /** Without any "war"/"var" family token, exactly "deer", "deered" and "dirf" become "dirt". */
  lemma RaceCardFixesDirt(s: string, u: UnicodeOps)
    requires forall w :: w in TokenizeOcr(s, u) ==> w !in {"war", "var", "vari", "varie", "varles"}
    ensures NormalizeRaceCard(s, u) == Join(" ", MapTokens(MapTokens(TokenizeOcr(s, u), DeerToDirt), DirfToDirt))
  {
    var toks := TokenizeOcr(s, u);
    var t2 := MapTokens(MapTokens(toks, DeerToDirt), DirfToDirt);
    forall i | 0 <= i < |t2|
      ensures t2[i] != "war" && t2[i] != "var" && t2[i] != "vari" && t2[i] != "varie" && t2[i] != "varles"
    {
      assert toks[i] in toks;
    }
    assert "war" !in t2 && "var" !in t2;
    assert MapTokens(t2, WarToVar) == t2;
    assert MapTokens(t2, VarToVaries) == t2;
  }

  // ---------------------------------------------------------------------
  // Digit-for-letter repairs in skill titles
  // ---------------------------------------------------------------------

  /** The character `fix_common_ocr_confusions` leaves at `i`, judged on the original neighbours. */
  function FixedAt(s: string, i: nat): char
    requires i < |s|
  {
    var ch := s[i];
    if (ch == '0' || ch == '6') && 0 < i < |s| - 1 && IsLetter(s[i - 1]) && IsLetter(s[i + 1]) then
      var lower := IsLowerAscii(s[i - 1]) || IsLowerAscii(s[i + 1]);
      if ch == '0' then (if lower then 'o' else 'O') else (if lower then 'g' else 'G')
    else ch
  }

  /** The repaired title: same length, and a character changes exactly when it is a 0 or 6 between two letters. */
  function FixConfusions(s: string): (r: string)
    ensures |r| == |s|
    ensures forall i :: 0 <= i < |s| ==>
              (r[i] != s[i] <==> (s[i] == '0' || s[i] == '6') && 0 < i < |s| - 1 && IsLetter(s[i - 1]) && IsLetter(s[i + 1]))
    ensures forall i :: 0 <= i < |s| && r[i] != s[i] ==>
              (s[i] == '0' ==> r[i] in {'o', 'O'}) && (s[i] == '6' ==> r[i] in {'g', 'G'}) && IsLetter(r[i])
  {
    seq(|s|, i requires 0 <= i < |s| => FixedAt(s, i))
  }

  /** A repaired letter is never next to a 0 or 6, so the loop's look at its already-updated left neighbour is harmless. */
  lemma LeftNeighbourKept(s: string, i: nat)
    requires 0 < i < |s| && (s[i] == '0' || s[i] == '6')
    ensures FixConfusions(s)[i - 1] == s[i - 1]
  {
  }

  /** `fix_common_ocr_confusions`: an in-place pass over a character buffer. */
  method FixCommonOcrConfusions(s: string) returns (r: string)
    ensures r == FixConfusions(s)
  {
    if s == "" {
      return "";
    }
    var chars := new char[|s|](k requires 0 <= k < |s| => s[k]);
    var n := chars.Length;
    for i := 0 to n
      invariant forall k :: 0 <= k < i ==> chars[k] == FixedAt(s, k)
      invariant forall k :: i <= k < n ==> chars[k] == s[k]
    {
      FixOne(chars, s, i);
    }
    r := chars[..];
    assert forall k :: 0 <= k < |s| ==> r[k] == FixConfusions(s)[k];
  }

  /** One step of the pass: the character at `i`, judged on its neighbours in the buffer. */
  method FixOne(chars: array<char>, s: string, i: nat)
    modifies chars
    requires chars.Length == |s| && i < |s|
    requires forall k :: 0 <= k < i ==> chars[k] == FixedAt(s, k)
    requires forall k :: i <= k < |s| ==> chars[k] == s[k]
    ensures forall k :: 0 <= k <= i ==> chars[k] == FixedAt(s, k)
    ensures forall k :: i < k < |s| ==> chars[k] == s[k]
  {
    var n := chars.Length;
    var ch := chars[i];
    if ch == '0' || ch == '6' {
      if i > 0 {
        LeftNeighbourKept(s, i);
        assert chars[i - 1] == s[i - 1];
      }
      var hasPrev := i - 1 >= 0;
      var hasNext := i + 1 < n;
      if hasPrev && hasNext && IsLetter(chars[i - 1]) && IsLetter(chars[i + 1]) {
        var lower := IsLowerAscii(chars[i - 1]) || IsLowerAscii(chars[i + 1]);
        if ch == '0' {
          chars[i] := if lower then 'o' else 'O';
        } else {
          chars[i] := if lower then 'g' else 'G';
        }
      }
    }
  }

  /** Repairing twice changes nothing more. */
  lemma FixIdempotent(s: string)
    ensures FixConfusions(FixConfusions(s)) == FixConfusions(s)
  {
    var r := FixConfusions(s);
    var rr := FixConfusions(r);
    forall i | 0 <= i < |s|
      ensures rr[i] == r[i]
    {
    }
  }

  // ---------------------------------------------------------------------
  // Fuzzy matching; `ratio` is `SequenceMatcher(None, a, b).ratio()`
  // ---------------------------------------------------------------------

  /**
   * The token loop of `fuzzy_contains` from token `from` on, with `best` the
   * best ratio so far: the first token reaching `threshold` wins, else the
   * best ratio seen.
   */
  function ScanTokens(tokens: seq<string>, from: nat, nd: string, threshold: real, ratio: (string, string) -> real,
                      best: real): (r: (bool, real))
    requires from <= |tokens|
    ensures r.0 <==> exists i :: from <= i < |tokens| && ratio(tokens[i], nd) >= threshold
    ensures r.0 ==> exists i :: from <= i < |tokens| && r.1 == ratio(tokens[i], nd) && r.1 >= threshold &&
                     forall j :: from <= j < i ==> ratio(tokens[j], nd) < threshold
    ensures !r.0 ==> r.1 >= best && forall i :: from <= i < |tokens| ==> ratio(tokens[i], nd) <= r.1
    ensures !r.0 ==> r.1 == best || exists i :: from <= i < |tokens| && r.1 == ratio(tokens[i], nd)
    decreases |tokens| - from
  {
    if from == |tokens| then (false, best)
    else
      var r := ratio(tokens[from], nd);
      var b := if r > best then r else best;
      if r >= threshold then (true, r)
      else ScanTokens(tokens, from + 1, nd, threshold, ratio, b)
  }

  /** `fuzzy_contains(..., return_ratio=True)`: whether the needle is found, and the ratio reported. */
  function FuzzyContains(haystack: string, needle: string, threshold: real, u: UnicodeOps,
                         ratio: (string, string) -> real): (r: (bool, real))
  {
    var hs := NormalizeOcr(haystack, u);
    var nd := NormalizeOcr(needle, u);
    if nd == "" then (false, 0.0)
    else if Contains(hs, nd) then (true, 1.0)
    else
      var tokens := Words(hs);
      if tokens == [] then (false, 0.0)
      else ScanTokens(tokens, 0, nd, threshold, ratio, 0.0)
  }

  /** The empty needle never matches; a normalised substring always matches with ratio 1. */
  lemma FuzzyContainsCases(haystack: string, needle: string, threshold: real, u: UnicodeOps, ratio: (string, string) -> real)
    ensures NormalizeOcr(needle, u) == "" ==> FuzzyContains(haystack, needle, threshold, u, ratio) == (false, 0.0)
    ensures NormalizeOcr(needle, u) != "" && Contains(NormalizeOcr(haystack, u), NormalizeOcr(needle, u)) ==>
              FuzzyContains(haystack, needle, threshold, u, ratio) == (true, 1.0)
    ensures FuzzyContains(haystack, needle, threshold, u, ratio).0 <==>
              NormalizeOcr(needle, u) != "" &&
              (Contains(NormalizeOcr(haystack, u), NormalizeOcr(needle, u)) ||
               exists t :: t in Words(NormalizeOcr(haystack, u)) && ratio(t, NormalizeOcr(needle, u)) >= threshold)
  {
    var tokens := Words(NormalizeOcr(haystack, u));
    var nd := NormalizeOcr(needle, u);
    var r := ScanTokens(tokens, 0, nd, threshold, ratio, 0.0);
    assert r.0 <==> exists t :: t in tokens && ratio(t, nd) >= threshold by {
      if r.0 {
        var i :| 0 <= i < |tokens| && ratio(tokens[i], nd) >= threshold;
        assert tokens[i] in tokens;
      }
    }
  }

  /** `fuzzy_contains` with `return_ratio=True`. */
  method FuzzyContainsRatio(haystack: string, needle: string, threshold: real, u: UnicodeOps,
                            ratio: (string, string) -> real) returns (found: bool, r: real)
    ensures (found, r) == FuzzyContains(haystack, needle, threshold, u, ratio)
  {
    var hs := NormalizeOcr(haystack, u);
    var nd := NormalizeOcr(needle, u);
    if nd == "" {
      return false, 0.0;
    }
    if Contains(hs, nd) {
      return true, 1.0;
    }
    var tokens := Words(hs);
    if tokens == [] {
      return false, 0.0;
    }
    var best := 0.0;
    for i := 0 to |tokens|
      invariant ScanTokens(tokens, 0, nd, threshold, ratio, 0.0) == ScanTokens(tokens, i, nd, threshold, ratio, best)
    {
      var x := ratio(tokens[i], nd);
      if x > best {
        best := x;
      }
      if x >= threshold {
        return true, x;
      }
    }
    return false, best;
  }

  /** `fuzzy_contains` with the default `return_ratio=False`. */
  method FuzzyContainsAny(haystack: string, needle: string, threshold: real, u: UnicodeOps,
                          ratio: (string, string) -> real) returns (found: bool)
    ensures found == FuzzyContains(haystack, needle, threshold, u, ratio).0
  {
    var hs := NormalizeOcr(haystack, u);
    var nd := NormalizeOcr(needle, u);
    if nd == "" {
      return false;
    }
    if Contains(hs, nd) {
      return true;
    }
    var tokens := Words(hs);
    if tokens == [] {
      return false;
    }
    found := AnyTokenReaches(tokens, nd, threshold, ratio);
  }

  /** The token loop of `fuzzy_contains` without the ratio: stop at the first token reaching `threshold`. */
  method AnyTokenReaches(tokens: seq<string>, nd: string, threshold: real, ratio: (string, string) -> real)
    returns (found: bool)
    ensures found == ScanTokens(tokens, 0, nd, threshold, ratio, 0.0).0
  {
    for i := 0 to |tokens|
      invariant forall j :: 0 <= j < i ==> ratio(tokens[j], nd) < threshold
    {
      if ratio(tokens[i], nd) >= threshold {
        return true;
      }
    }
    return false;
  }

  /** `fuzzy_ratio`: the ratio of both texts lower-cased. */
  function FuzzyRatio(a: string, b: string, u: UnicodeOps, ratio: (string, string) -> real): real
  {
    ratio(u.lower(a), u.lower(b))
  }

  /** The score `fuzzy_best_match` gives each target. */
  function RatioTo(text: string, u: UnicodeOps, ratio: (string, string) -> real): string -> real
  {
    t => FuzzyRatio(text, t, u, ratio)
  }

  /** `fuzzy_best_match`. */
  method FuzzyBestMatch(text: string, targets: seq<string>, u: UnicodeOps, ratio: (string, string) -> real)
    returns (best: Option<string>, score: real)
    ensures (best, score) == FirstMax(targets, RatioTo(text, u, ratio))
  {
    best, score := None, 0.0;
    for i := 0 to |targets|
      invariant (best, score) == FirstMax(targets[..i], RatioTo(text, u, ratio))
    {
      assert targets[..i + 1][..i] == targets[..i];
      var r := FuzzyRatio(text, targets[i], u, ratio);
      if r > score {
        best, score := Some(targets[i]), r;
      }
    }
    assert targets[..|targets|] == targets;
  }
}
