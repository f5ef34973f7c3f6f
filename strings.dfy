/**
 * The slice of Python's `str` behaviour that the modelled code relies on:
 * whitespace stripping, ASCII case mapping, splitting, joining, replacing,
 * prefix/suffix/substring tests and integer/decimal conversion.
 */
module Strings {
  import opened Wrappers

  // ---------------------------------------------------------------------
  // Character classes
  // ---------------------------------------------------------------------

  /** Characters for which Python's `str.isspace()` holds. */
  predicate IsSpace(c: char)
  {
    c == ' ' || ('\t' <= c <= '\r') || ('\U{1C}' <= c <= '\U{1F}') || c == '\U{85}' || c == '\U{A0}' ||
    c == '\U{1680}' || ('\U{2000}' <= c <= '\U{200A}') || c == '\U{2028}' || c == '\U{2029}' ||
    c == '\U{202F}' || c == '\U{205F}' || c == '\U{3000}'
  }

  predicate IsDigit(c: char) { '0' <= c <= '9' }
  predicate IsUpperAscii(c: char) { 'A' <= c <= 'Z' }
  predicate IsLowerAscii(c: char) { 'a' <= c <= 'z' }
  predicate IsLetter(c: char) { IsUpperAscii(c) || IsLowerAscii(c) }

  function LowerChar(c: char): char
  {
    if IsUpperAscii(c) then (c as int + 32) as char else c
  }

  function UpperChar(c: char): char
  {
    if IsLowerAscii(c) then (c as int - 32) as char else c
  }

  /** `str.lower()` on ASCII letters. */
  function Lower(s: string): (r: string)
    ensures |r| == |s|
    ensures forall i :: 0 <= i < |s| ==> r[i] == LowerChar(s[i])
  {
    seq(|s|, i requires 0 <= i < |s| => LowerChar(s[i]))
  }

  /** `str.upper()` on ASCII letters. */
  function Upper(s: string): (r: string)
    ensures |r| == |s|
    ensures forall i :: 0 <= i < |s| ==> r[i] == UpperChar(s[i])
  {
    seq(|s|, i requires 0 <= i < |s| => UpperChar(s[i]))
  }

  lemma LowerIdempotent(s: string)
    ensures Lower(Lower(s)) == Lower(s)
  {
  }

  // ---------------------------------------------------------------------
  // Stripping
  // ---------------------------------------------------------------------

  predicate NoEdgeSpace(s: string)
  {
    |s| == 0 || (!IsSpace(s[0]) && !IsSpace(s[|s| - 1]))
  }

  /** Number of whitespace characters `s` starts with. */
  function LeadingSpaces(s: string): (n: nat)
    ensures n <= |s|
    ensures n < |s| ==> !IsSpace(s[n])
    decreases |s|
  {
    if |s| > 0 && IsSpace(s[0]) then 1 + LeadingSpaces(s[1..]) else 0
  }

  /** Number of whitespace characters `s` ends with. */
  function TrailingSpaces(s: string): (n: nat)
    ensures n <= |s|
    ensures n < |s| ==> !IsSpace(s[|s| - 1 - n])
    decreases |s|
  {
    if |s| > 0 && IsSpace(s[|s| - 1]) then 1 + TrailingSpaces(s[..|s| - 1]) else 0
  }

  /** `str.lstrip()`: drops leading whitespace, keeping a suffix. */
  function LStrip(s: string): (r: string)
    ensures |r| <= |s|
    ensures |r| > 0 ==> !IsSpace(r[0])
  {
    s[LeadingSpaces(s)..]
  }

  /** `str.rstrip()`: drops trailing whitespace, keeping a prefix. */
  function RStrip(s: string): (r: string)
    ensures |r| <= |s|
    ensures |r| > 0 ==> !IsSpace(r[|r| - 1])
  {
    s[..|s| - TrailingSpaces(s)]
  }

  /** `str.strip()`. */
  function Strip(s: string): (r: string)
    ensures |r| <= |s|
    ensures NoEdgeSpace(r)
  {
    RStrip(LStrip(s))
  }

  predicate IsBlank(s: string)
  {
    forall i :: 0 <= i < |s| ==> IsSpace(s[i])
  }

  /** What `LStrip` drops is whitespace. */
  lemma {:induction false} LeadingSpacesAreSpace(s: string)
    ensures IsBlank(s[..LeadingSpaces(s)])
    decreases |s|
  {
    if |s| > 0 && IsSpace(s[0]) {
      LeadingSpacesAreSpace(s[1..]);
      var d := LeadingSpaces(s);
      assert s[..d] == [s[0]] + s[1..][..d - 1];
    }
  }

  /** What `RStrip` drops is whitespace. */
  lemma {:induction false} TrailingSpacesAreSpace(s: string)
    ensures IsBlank(s[|s| - TrailingSpaces(s)..])
    decreases |s|
  {
    if |s| > 0 && IsSpace(s[|s| - 1]) {
      var init := s[..|s| - 1];
      TrailingSpacesAreSpace(init);
      assert TrailingSpaces(s) == TrailingSpaces(init) + 1;
      var n := |init| - TrailingSpaces(init);
      forall k | 0 <= k < |s| - n ensures IsSpace(s[n..][k]) {
        if n + k < |init| {
          assert s[n..][k] == init[n..][k];
        }
      }
    }
  }

  lemma {:induction false} LStripBlank(s: string)
    requires IsBlank(s)
    ensures LStrip(s) == ""
    decreases |s|
  {
    if |s| > 0 {
      LStripBlank(s[1..]);
    }
  }

  lemma {:induction false} StripEmptyIffBlank(s: string)
    ensures Strip(s) == "" <==> IsBlank(s)
  {
    if IsBlank(s) {
      LStripBlank(s);
    } else {
      var k :| 0 <= k < |s| && !IsSpace(s[k]);
      var l := LStrip(s);
      LeadingSpacesAreSpace(s);
      assert LeadingSpaces(s) <= k;
      assert |l| > 0 && !IsSpace(l[0]);
      TrailingSpacesAreSpace(l);
      assert TrailingSpaces(l) < |l|;
    }
  }

  lemma StripNoEdge(s: string)
    requires NoEdgeSpace(s)
    ensures Strip(s) == s
  {
  }

  /** `s.lstrip(chars)`: drops leading characters drawn from `cs`. */
  function LStripChars(s: string, cs: set<char>): (r: string)
    ensures |r| <= |s| && r == s[|s| - |r|..]
    ensures |r| > 0 ==> r[0] !in cs
    decreases |s|
  {
    if |s| > 0 && s[0] in cs then LStripChars(s[1..], cs) else s
  }

  // ---------------------------------------------------------------------
  // Prefixes, suffixes, substrings
  // ---------------------------------------------------------------------

  predicate StartsWith(s: string, p: string)
  {
    |p| <= |s| && s[..|p|] == p
  }

  /** A prefix of `a` is a prefix of `a` followed by anything. */
  lemma StartsWithConcat(a: string, b: string, p: string)
    requires StartsWith(a, p)
    ensures StartsWith(a + b, p)
  {
    assert (a + b)[..|p|] == a[..|p|];
  }

  predicate EndsWith(s: string, p: string)
  {
    |p| <= |s| && s[|s| - |p|..] == p
  }

  /** Python's `sub in s`. */
  predicate Contains(s: string, sub: string)
    decreases |s|
  {
    StartsWith(s, sub) || (|s| > 0 && Contains(s[1..], sub))
  }

  predicate HasChar(s: string, c: char)
  {
    exists i :: 0 <= i < |s| && s[i] == c
  }

  // ---------------------------------------------------------------------
  // Searching, splitting, joining
  // ---------------------------------------------------------------------

  /** Index of the first `c` in `s`, or `|s|` when there is none. */
  function Find(s: string, c: char): (i: nat)
    ensures i <= |s|
    ensures i < |s| ==> s[i] == c
    ensures forall k :: 0 <= k < i ==> s[k] != c
    decreases |s|
  {
    if |s| == 0 then 0
    else if s[0] == c then 0
    else 1 + Find(s[1..], c)
  }

  /** `s.split(c)` for a one-character separator. */
  function Split(s: string, c: char): (parts: seq<string>)
    ensures |parts| >= 1
    ensures forall p :: p in parts ==> !HasChar(p, c)
    decreases |s|
  {
    var i := Find(s, c);
    if i == |s| then [s] else [s[..i]] + Split(s[i + 1..], c)
  }

  /** `sep.join(parts)`. */
  function Join(sep: string, parts: seq<string>): string
    decreases |parts|
  {
    if |parts| == 0 then ""
    else if |parts| == 1 then parts[0]
    else parts[0] + sep + Join(sep, parts[1..])
  }

  /** `s.partition(c)`: text before the first `c`, whether `c` was found, and text after it. */
  function Partition(s: string, c: char): (r: (string, bool, string))
    ensures r.1 <==> HasChar(s, c)
    ensures !HasChar(r.0, c)
    ensures s == if r.1 then r.0 + [c] + r.2 else r.0
    ensures !r.1 ==> r.2 == ""
  {
    var i := Find(s, c);
    if i == |s| then (s, false, "")
    else
      assert s == s[..i] + [c] + s[i + 1..];
      (s[..i], true, s[i + 1..])
  }

  lemma {:induction false} SplitJoin(parts: seq<string>, c: char)
    requires |parts| >= 1
    requires forall p :: p in parts ==> !HasChar(p, c)
    ensures Split(Join([c], parts), c) == parts
    decreases |parts|
  {
    var s := Join([c], parts);
    if |parts| == 1 {
      assert s == parts[0];
    } else {
      var rest := Join([c], parts[1..]);
      assert s == parts[0] + [c] + rest;
      assert !HasChar(parts[0], c);
      FindAfterPrefix(parts[0], rest, c);
      assert Find(s, c) == |parts[0]|;
      assert s[..|parts[0]|] == parts[0];
      assert s[|parts[0]| + 1..] == rest;
      SplitJoin(parts[1..], c);
    }
  }

  lemma {:induction false} FindAfterPrefix(p: string, rest: string, c: char)
    requires !HasChar(p, c)
    ensures Find(p + [c] + rest, c) == |p|
    decreases |p|
  {
    if |p| > 0 {
      assert p[0] != c;
      assert (p + [c] + rest)[1..] == p[1..] + [c] + rest;
      assert !HasChar(p[1..], c) by {
        forall k | 0 <= k < |p[1..]| ensures p[1..][k] != c { assert p[1..][k] == p[k + 1]; }
      }
      FindAfterPrefix(p[1..], rest, c);
    }
  }

  /** Index of the first whitespace character, or `|s|`. */
  function FindSpace(s: string): (i: nat)
    ensures i <= |s|
    ensures i < |s| ==> IsSpace(s[i])
    ensures forall k :: 0 <= k < i ==> !IsSpace(s[k])
    decreases |s|
  {
    if |s| == 0 then 0
    else if IsSpace(s[0]) then 0
    else 1 + FindSpace(s[1..])
  }

  predicate IsWord(w: string)
  {
    |w| > 0 && forall k :: 0 <= k < |w| ==> !IsSpace(w[k])
  }

  /** `s.split()` with no argument: the maximal runs of non-whitespace. */
  function Words(s: string): (ws: seq<string>)
    ensures forall i :: 0 <= i < |ws| ==> IsWord(ws[i])
    decreases |s|
  {
    var t := LStrip(s);
    if t == [] then []
    else
      var i := FindSpace(t);
      assert i > 0;
      var w := t[..i];
      assert IsWord(w) by {
        forall k | 0 <= k < |w| ensures !IsSpace(w[k]) { assert w[k] == t[k]; }
      }
      [w] + Words(t[i..])
  }

  lemma WordsOfBlank(s: string)
    ensures Words(s) == [] <==> IsBlank(s)
  {
    if IsBlank(s) {
      LStripBlank(s);
    } else {
      var k :| 0 <= k < |s| && !IsSpace(s[k]);
      LeadingSpacesAreSpace(s);
      assert LeadingSpaces(s) <= k;
    }
  }

  /** `" ".join(s.split())`: whitespace runs collapsed to one space, ends trimmed. */
  function CollapseWhitespace(s: string): string
  {
    Join(" ", Words(s))
  }

  /** Every character of `s` satisfies `p`. */
  predicate AllOf(s: string, p: char -> bool)
  {
    forall k :: 0 <= k < |s| ==> p(s[k])
  }

  /** No two whitespace characters are adjacent. */
  predicate SingleSpaced(s: string)
  {
    forall k :: 0 <= k < |s| - 1 ==> !(IsSpace(s[k]) && IsSpace(s[k + 1]))
  }

  lemma SliceAllOf(s: string, i: nat, j: nat, p: char -> bool)
    requires AllOf(s, p) && i <= j <= |s|
    ensures AllOf(s[i..j], p)
  {
    assert forall k :: 0 <= k < j - i ==> s[i..j][k] == s[i + k];
  }

  lemma StripAllOf(s: string, p: char -> bool)
    requires AllOf(s, p)
    ensures AllOf(Strip(s), p)
  {
    var l := LStrip(s);
    SliceAllOf(s, LeadingSpaces(s), |s|, p);
    assert s[LeadingSpaces(s)..|s|] == l;
    SliceAllOf(l, 0, |l| - TrailingSpaces(l), p);
    assert l[0..|l| - TrailingSpaces(l)] == Strip(s);
  }

  /** A substring's characters all occur in the string. */
  lemma {:induction false} ContainsHasChar(s: string, sub: string, i: nat)
    requires Contains(s, sub) && i < |sub|
    ensures HasChar(s, sub[i])
    decreases |s|
  {
    if StartsWith(s, sub) {
      assert s[..|sub|][i] == s[i];
    } else {
      ContainsHasChar(s[1..], sub, i);
      var k :| 0 <= k < |s[1..]| && s[1..][k] == sub[i];
      assert s[k + 1] == sub[i];
    }
  }

  /** The words of `s` keep any property all of its characters have. */
  lemma {:induction false} WordsAllOf(s: string, p: char -> bool)
    requires AllOf(s, p)
    ensures forall i :: 0 <= i < |Words(s)| ==> AllOf(Words(s)[i], p)
    decreases |s|
  {
    var t := LStrip(s);
    SliceAllOf(s, LeadingSpaces(s), |s|, p);
    assert s[LeadingSpaces(s)..|s|] == t;
    if t != [] {
      var i := FindSpace(t);
      var rest := t[i..];
      SliceAllOf(t, 0, i, p);
      SliceAllOf(t, i, |t|, p);
      assert t[0..i] == t[..i] && t[i..|t|] == rest;
      WordsAllOf(rest, p);
      assert Words(s) == [t[..i]] + Words(rest);
      ConsAllOf(t[..i], Words(rest), p);
    }
  }

  /** Prepending a word whose characters all satisfy `p` keeps that true of every word. */
  lemma ConsAllOf(w: string, ws: seq<string>, p: char -> bool)
    requires AllOf(w, p) && forall i :: 0 <= i < |ws| ==> AllOf(ws[i], p)
    ensures forall i :: 0 <= i < |[w] + ws| ==> AllOf(([w] + ws)[i], p)
  {
  }

  /** Joining keeps any property the separator and all parts have. */
  lemma {:induction false} JoinAllOf(sep: string, parts: seq<string>, p: char -> bool)
    requires AllOf(sep, p)
    requires forall i :: 0 <= i < |parts| ==> AllOf(parts[i], p)
    ensures AllOf(Join(sep, parts), p)
    decreases |parts|
  {
    if |parts| > 1 {
      JoinAllOf(sep, parts[1..], p);
      var rest := Join(sep, parts[1..]);
      var head := parts[0] + sep;
      assert Join(sep, parts) == head + rest;
      assert AllOf(head, p) by {
        assert forall k :: 0 <= k < |head| ==> head[k] == if k < |parts[0]| then parts[0][k] else sep[k - |parts[0]|];
      }
    }
  }

  /** Words joined by one space: non-empty when there are words, no edge space, no double space. */
  lemma {:induction false} JoinWordsShape(ws: seq<string>)
    requires forall i :: 0 <= i < |ws| ==> IsWord(ws[i])
    ensures |ws| > 0 ==> |ws[0]| > 0 && |Join(" ", ws)| > 0 && Join(" ", ws)[0] == ws[0][0]
    ensures NoEdgeSpace(Join(" ", ws)) && SingleSpaced(Join(" ", ws))
    decreases |ws|
  {
    if |ws| > 1 {
      JoinWordsShape(ws[1..]);
      var w := ws[0];
      var rest := Join(" ", ws[1..]);
      var s := Join(" ", ws);
      assert s == w + " " + rest;
      assert |rest| > 0 && !IsSpace(rest[0]) by {
        assert ws[1..][0] == ws[1];
      }
      forall k | 0 <= k < |s| - 1
        ensures !(IsSpace(s[k]) && IsSpace(s[k + 1]))
      {
        if k < |w| {
          assert s[k] == w[k];
        } else if k == |w| {
          assert s[k + 1] == rest[0];
        } else {
          assert s[k] == rest[k - |w| - 1] && s[k + 1] == rest[k - |w|];
        }
      }
      assert s[|s| - 1] == rest[|rest| - 1];
    }
  }

  lemma WordsOfWord(w: string)
    requires IsWord(w)
    ensures Words(w) == [w]
  {
    assert LeadingSpaces(w) == 0;
    assert LStrip(w) == w;
    assert FindSpace(w) == |w|;
    assert w[..|w|] == w && w[|w|..] == "";
    assert LStrip("") == "";
  }

  lemma WordsAfterSpace(rest: string)
    requires |rest| > 0 && !IsSpace(rest[0])
    ensures Words(" " + rest) == Words(rest)
  {
    var t := " " + rest;
    assert t[1..] == rest;
    assert LeadingSpaces(t) == 1;
    assert LStrip(t) == rest == LStrip(rest);
  }

  lemma WordsOfWordThen(w: string, rest: string)
    requires IsWord(w)
    ensures Words(w + " " + rest) == [w] + Words(" " + rest)
  {
    var s := w + " " + rest;
    assert s[0] == w[0];
    assert LStrip(s) == s;
    assert forall k :: 0 <= k < |w| ==> s[k] == w[k];
    assert s[|w|] == ' ';
    var i := FindSpace(s);
    assert i == |w|;
    assert s[..i] == w && s[i..] == " " + rest;
  }

  /** Splitting words joined by one space gives the words back. */
  lemma {:induction false} WordsJoin(ws: seq<string>)
    requires forall i :: 0 <= i < |ws| ==> IsWord(ws[i])
    ensures Words(Join(" ", ws)) == ws
    decreases |ws|
  {
    if |ws| == 1 {
      WordsOfWord(ws[0]);
    } else if |ws| > 1 {
      var tail := ws[1..];
      assert forall i :: 0 <= i < |tail| ==> tail[i] == ws[i + 1];
      WordsJoin(tail);
      JoinWordsShape(tail);
      JoinCons(" ", ws);
      WordsOfWordAndRest(ws[0], Join(" ", tail), tail);
      assert [ws[0]] + tail == ws;
    }
  }

  lemma JoinCons(sep: string, parts: seq<string>)
    requires |parts| > 1
    ensures Join(sep, parts) == parts[0] + sep + Join(sep, parts[1..])
  {
  }

  /** Joining two runs of fields: the first run's text, then the separator and the second's when there is one. */
  lemma {:induction false} JoinConcat(sep: string, a: seq<string>, b: seq<string>)
    requires |a| > 0
    ensures Join(sep, a + b) == Join(sep, a) + (if b == [] then "" else sep + Join(sep, b))
    decreases |a|
  {
    if b == [] {
      assert a + b == a;
    } else if |a| == 1 {
      assert (a + b)[1..] == b;
      JoinCons(sep, a + b);
    } else {
      JoinConcat(sep, a[1..], b);
      assert (a + b)[1..] == a[1..] + b;
      JoinCons(sep, a + b);
      JoinCons(sep, a);
    }
  }

  /** A word, one space and text starting with a non-space split into the word and the text's words. */
  lemma WordsOfWordAndRest(w: string, rest: string, tail: seq<string>)
    requires IsWord(w) && |rest| > 0 && !IsSpace(rest[0]) && Words(rest) == tail
    ensures Words(w + " " + rest) == [w] + tail
  {
    WordsOfWordThen(w, rest);
    WordsAfterSpace(rest);
  }


  /** `s.replace(pat, rep)`: non-overlapping occurrences, left to right. */
  function Replace(s: string, pat: string, rep: string): string
    requires |pat| > 0
    decreases |s|
  {
    if |s| < |pat| then s
    else if s[..|pat|] == pat then rep + Replace(s[|pat|..], pat, rep)
    else [s[0]] + Replace(s[1..], pat, rep)
  }

  // ---------------------------------------------------------------------
  // Numbers
  // ---------------------------------------------------------------------

  function DigitValue(c: char): nat
    requires IsDigit(c)
  {
    c as int - '0' as int
  }

  function DigitChar(d: nat): char
    requires d < 10
  {
    ('0' as int + d) as char
  }

  predicate AllDigits(s: string)
  {
    forall i :: 0 <= i < |s| ==> IsDigit(s[i])
  }

  /** Value of a run of decimal digits. */
  function DigitsValue(s: string): nat
    requires AllDigits(s)
    decreases |s|
  {
    if |s| == 0 then 0 else DigitsValue(s[..|s| - 1]) * 10 + DigitValue(s[|s| - 1])
  }

  /** `str(n)` for a natural number. */
  function NatToString(n: nat): (s: string)
    ensures |s| > 0 && AllDigits(s)
    decreases n
  {
    if n < 10 then [DigitChar(n)] else NatToString(n / 10) + [DigitChar(n % 10)]
  }

  lemma {:induction false} NatToStringRoundTrip(n: nat)
    ensures DigitsValue(NatToString(n)) == n
    decreases n
  {
    var s := NatToString(n);
    if n >= 10 {
      NatToStringRoundTrip(n / 10);
      assert s[..|s| - 1] == NatToString(n / 10);
    }
  }

  /** `str(i)` for an integer. */
  function IntToString(i: int): (s: string)
  {
    if i < 0 then "-" + NatToString(-i) else NatToString(i)
  }

  /** Text of the form `[+-]?\d+`. */
  predicate IsIntLiteral(s: string)
  {
    if |s| > 0 && (s[0] == '+' || s[0] == '-') then |s| > 1 && AllDigits(s[1..])
    else |s| > 0 && AllDigits(s)
  }

  function IntLiteralValue(s: string): int
    requires IsIntLiteral(s)
  {
    if s[0] == '-' then -(DigitsValue(s[1..]) as int)
    else if s[0] == '+' then DigitsValue(s[1..])
    else DigitsValue(s)
  }

  /** Python `int(s)` on a string: surrounding whitespace, optional sign, decimal digits. */
  function ParseInt(s: string): (r: Option<int>)
    ensures r.Some? <==> IsIntLiteral(Strip(s))
  {
    var t := Strip(s);
    if IsIntLiteral(t) then Some(IntLiteralValue(t)) else None
  }

  lemma {:induction false} ParseIntToString(i: int)
    ensures ParseInt(IntToString(i)) == Some(i)
  {
    var m: nat := if i < 0 then -i else i;
    var d := NatToString(m);
    NatToStringRoundTrip(m);
    var s := IntToString(i);
    if i < 0 {
      assert s == "-" + d && s[1..] == d;
    } else {
      assert s == d;
    }
    assert !IsSpace(s[0]) && !IsSpace(s[|s| - 1]);
    StripNoEdge(s);
    assert IsIntLiteral(s);
  }

  /** Length of the leading run of digits of `s`. */
  function DigitRun(s: string): (n: nat)
    ensures n <= |s| && AllDigits(s[..n])
    ensures n < |s| ==> !IsDigit(s[n])
    decreases |s|
  {
    if |s| > 0 && IsDigit(s[0]) then
      var k := DigitRun(s[1..]);
      assert s[..k + 1] == [s[0]] + s[1..][..k];
      k + 1
    else 0
  }

  function Pow10(k: nat): (r: nat)
    ensures r >= 1
  {
    if k == 0 then 1 else 10 * Pow10(k - 1)
  }

  /**
   * The match of `[+-]?\d+(?:\.\d+)?` anchored at the start of `s`
   * (Python `re.match`), as its numeric value and its length.
   */
  function MatchDecimal(s: string): (r: Option<(real, nat)>)
    ensures r.Some? ==> 0 < r.value.1 <= |s|
  {
    var signLen := if |s| > 0 && (s[0] == '+' || s[0] == '-') then 1 else 0;
    var body := s[signLen..];
    var n := DigitRun(body);
    if n == 0 then None
    else
      var whole := DigitsValue(body[..n]) as real;
      var rest := body[n..];
      var f := if |rest| >= 2 && rest[0] == '.' then DigitRun(rest[1..]) else 0;
      var frac := if f > 0 then DigitsValue(rest[1..][..f]) as real / Pow10(f) as real else 0.0;
      var mag := whole + frac;
      var len := signLen + n + (if f > 0 then 1 + f else 0);
      Some((if signLen == 1 && s[0] == '-' then -mag else mag, len))
  }

  /** The whole of `s` has the form `[+-]?\d+(?:\.\d+)?`. */
  predicate IsDecimal(s: string)
  {
    MatchDecimal(s).Some? && MatchDecimal(s).value.1 == |s|
  }

  /** Python `float(s)` restricted to plain decimal notation. */
  function ParseDecimal(s: string): (r: Option<real>)
    ensures r.Some? <==> IsDecimal(Strip(s))
  {
    var t := Strip(s);
    if IsDecimal(t) then Some(MatchDecimal(t).value.0) else None
  }

  /** Python `re.search` for `[+-]?\d+(?:\.\d+)?`: the leftmost match's value. */
  function SearchDecimal(s: string): (r: Option<real>)
    ensures r.None? ==> forall i :: 0 <= i < |s| ==> !IsDigit(s[i])
    decreases |s|
  {
    if |s| == 0 then None
    else if MatchDecimal(s).Some? then Some(MatchDecimal(s).value.0)
    else
      SearchDecimal(s[1..])
  }

  // ---------------------------------------------------------------------
  // Ordering and title case
  // ---------------------------------------------------------------------

  /** Python's `a <= b` on strings: lexicographic by code point, a prefix first. */
  predicate StrLe(a: string, b: string)
    decreases |a|
  {
    |a| == 0 || (|b| > 0 && (a[0] < b[0] || (a[0] == b[0] && StrLe(a[1..], b[1..]))))
  }

  lemma {:induction false} StrLeTotal(a: string, b: string)
    ensures StrLe(a, b) || StrLe(b, a)
    decreases |a|
  {
    if |a| > 0 && |b| > 0 && a[0] == b[0] {
      StrLeTotal(a[1..], b[1..]);
    }
  }

  lemma {:induction false} StrLeAntisymmetric(a: string, b: string)
    requires StrLe(a, b) && StrLe(b, a)
    ensures a == b
    decreases |a|
  {
    if |a| > 0 {
      StrLeAntisymmetric(a[1..], b[1..]);
      assert a == [a[0]] + a[1..] && b == [b[0]] + b[1..];
    }
  }

  lemma {:induction false} StrLeTransitive(a: string, b: string, c: string)
    requires StrLe(a, b) && StrLe(b, c)
    ensures StrLe(a, c)
    decreases |a|
  {
    if |a| > 0 && a[0] == b[0] && b[0] == c[0] {
      StrLeTransitive(a[1..], b[1..], c[1..]);
    }
  }

  /** Every `a` in `s` replaced by `b`. */
  function ReplaceChar(s: string, a: char, b: char): (r: string)
    ensures |r| == |s|
    ensures forall i :: 0 <= i < |s| ==> r[i] == if s[i] == a then b else s[i]
  {
    seq(|s|, i requires 0 <= i < |s| => if s[i] == a then b else s[i])
  }

  /** `s.replace(a, b)` with one-character arguments replaces character by character. */
  lemma {:induction false} ReplaceOneChar(s: string, a: char, b: char)
    ensures Replace(s, [a], [b]) == ReplaceChar(s, a, b)
    decreases |s|
  {
    if |s| >= 1 {
      ReplaceOneChar(s[1..], a, b);
      assert s[..1] == [s[0]];
      assert ReplaceChar(s, a, b) == [ReplaceChar(s, a, b)[0]] + ReplaceChar(s[1..], a, b);
    }
  }

  /** The title-cased character at `i`: upper after a non-letter or at the start, lower after a letter. */
  function TitleCharAt(s: string, i: nat): char
    requires i < |s|
  {
    if i == 0 || !IsLetter(s[i - 1]) then UpperChar(s[i]) else LowerChar(s[i])
  }

  /** `str.title()` on ASCII text. */
  function Title(s: string): (r: string)
    ensures |r| == |s|
    ensures forall i :: 0 <= i < |s| ==> r[i] == TitleCharAt(s, i)
  {
    seq(|s|, i requires 0 <= i < |s| => TitleCharAt(s, i))
  }
}
