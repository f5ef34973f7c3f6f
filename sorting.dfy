/**
 * Python's `sorted`/`list.sort` with a key: a stable sort under a total
 * preorder `le` (`le(a, b)` means `a` may come before `b`). With
 * `reverse=True` Python still keeps equal elements in their original order,
 * which is what `le(a, b) := key(a) >= key(b)` gives here.
 */
module Sorting {
  import opened Wrappers

  ghost predicate TotalPreorder<T(!new)>(le: (T, T) -> bool)
  {
    (forall a, b :: le(a, b) || le(b, a)) &&
    (forall a, b, c :: le(a, b) && le(b, c) ==> le(a, c))
  }

  predicate SortedBy<T>(s: seq<T>, le: (T, T) -> bool)
  {
    forall i, j :: 0 <= i < j < |s| ==> le(s[i], s[j])
  }

  /** Puts `x` before the first element it may precede, so `x` stays ahead of its equals. */
  function Insert<T>(x: T, s: seq<T>, le: (T, T) -> bool): (r: seq<T>)
    ensures |r| == |s| + 1
    ensures multiset(r) == multiset(s) + multiset{x}
    decreases |s|
  {
    if s == [] then [x]
    else if le(x, s[0]) then [x] + s
    else
      assert s == [s[0]] + s[1..];
      [s[0]] + Insert(x, s[1..], le)
  }

  lemma {:induction false} InsertSorted<T(!new)>(x: T, s: seq<T>, le: (T, T) -> bool)
    requires TotalPreorder(le)
    requires SortedBy(s, le)
    ensures SortedBy(Insert(x, s, le), le)
    decreases |s|
  {
    if s != [] && !le(x, s[0]) {
      InsertSorted(x, s[1..], le);
      var r := Insert(x, s, le);
      var t := Insert(x, s[1..], le);
      assert r == [s[0]] + t;
      forall k | 0 <= k < |t| ensures le(s[0], t[k]) {
        assert t[k] in multiset(t);
        assert t[k] == x || t[k] in multiset(s[1..]);
        if t[k] != x {
          var m :| 0 <= m < |s[1..]| && s[1..][m] == t[k];
          assert s[1..][m] == s[m + 1];
        }
      }
    }
  }

  /** Stable insertion sort. */
  function SortBy<T>(s: seq<T>, le: (T, T) -> bool): (r: seq<T>)
    ensures |r| == |s|
    ensures multiset(r) == multiset(s)
    decreases |s|
  {
    if s == [] then []
    else
      assert s == [s[0]] + s[1..];
      Insert(s[0], SortBy(s[1..], le), le)
  }

  lemma {:induction false} SortBySorted<T(!new)>(s: seq<T>, le: (T, T) -> bool)
    requires TotalPreorder(le)
    ensures SortedBy(SortBy(s, le), le)
    decreases |s|
  {
    if s != [] {
      SortBySorted(s[1..], le);
      InsertSorted(s[0], SortBy(s[1..], le), le);
    }
  }

  /** Every element of a sorted sequence stands in `le` to every later one, so keeping a sub-list keeps it sorted. */
  lemma {:induction false} FilterSorted<T>(s: seq<T>, le: (T, T) -> bool, keep: T -> bool)
    requires SortedBy(s, le)
    ensures SortedBy(Filter(s, keep), le)
    decreases |s|
  {
    if s != [] {
      FilterSorted(s[1..], le, keep);
      var rest := Filter(s[1..], keep);
      forall k | 0 <= k < |rest| ensures le(s[0], rest[k]) {
        FilterMember(s[1..], keep, k);
      }
    }
  }

  /** Concatenation is associative. */
  lemma ConcatAssoc<T>(a: seq<T>, b: seq<T>, c: seq<T>)
    ensures a + (b + c) == (a + b) + c
  {
  }

  /** Python's `[x for x in s if keep(x)]`. */
  function Filter<T>(s: seq<T>, keep: T -> bool): (r: seq<T>)
    ensures |r| <= |s|
    ensures forall k :: 0 <= k < |r| ==> keep(r[k])
    decreases |s|
  {
    if s == [] then []
    else if keep(s[0]) then [s[0]] + Filter(s[1..], keep)
    else Filter(s[1..], keep)
  }

  lemma {:induction false} FilterMember<T>(s: seq<T>, keep: T -> bool, k: nat)
    requires k < |Filter(s, keep)|
    ensures exists m :: 0 <= m < |s| && s[m] == Filter(s, keep)[k]
    decreases |s|
  {
    if keep(s[0]) {
      if k > 0 {
        FilterMember(s[1..], keep, k - 1);
        var m :| 0 <= m < |s[1..]| && s[1..][m] == Filter(s[1..], keep)[k - 1];
        assert s[m + 1] == Filter(s, keep)[k];
      } else {
        assert s[0] == Filter(s, keep)[0];
      }
    } else {
      FilterMember(s[1..], keep, k);
      var m :| 0 <= m < |s[1..]| && s[1..][m] == Filter(s[1..], keep)[k];
      assert s[m + 1] == Filter(s, keep)[k];
    }
  }

  /** A filtered list is a sub-multiset of its source. */
  lemma {:induction false} FilterSubset<T>(s: seq<T>, keep: T -> bool)
    ensures multiset(Filter(s, keep)) <= multiset(s)
    decreases |s|
  {
    if s != [] {
      FilterSubset(s[1..], keep);
      assert s == [s[0]] + s[1..];
    }
  }

  /** Filtering a sequence grown by one element. */
  lemma {:induction false} FilterSnoc<T>(s: seq<T>, x: T, keep: T -> bool)
    ensures Filter(s + [x], keep) == Filter(s, keep) + (if keep(x) then [x] else [])
    decreases |s|
  {
    if s == [] {
      assert s + [x] == [x];
      assert [x][1..] == [];
    } else {
      assert (s + [x])[0] == s[0];
      assert (s + [x])[1..] == s[1..] + [x];
      FilterSnoc(s[1..], x, keep);
    }
  }

  lemma {:induction false} FilterComplete<T>(s: seq<T>, keep: T -> bool, m: nat)
    requires m < |s| && keep(s[m])
    ensures s[m] in Filter(s, keep)
    decreases |s|
  {
    if m > 0 {
      FilterComplete(s[1..], keep, m - 1);
    }
  }

  /**
   * On a sorted sequence, a test that passes everything ahead of a passing
   * element keeps a prefix: the filtered list is the first `n` elements, and
   * the element just after them fails.
   */
  lemma {:induction false} FilterSortedPrefix<T>(s: seq<T>, le: (T, T) -> bool, keep: T -> bool)
    requires SortedBy(s, le)
    requires forall a, b :: le(a, b) && keep(b) ==> keep(a)
    ensures |Filter(s, keep)| <= |s|
    ensures Filter(s, keep) == s[..|Filter(s, keep)|]
    ensures |Filter(s, keep)| < |s| ==> !keep(s[|Filter(s, keep)|])
    decreases |s|
  {
    if s != [] {
      FilterSortedPrefix(s[1..], le, keep);
      var rest := Filter(s[1..], keep);
      if keep(s[0]) {
        assert Filter(s, keep) == [s[0]] + rest;
        assert [s[0]] + s[1..][..|rest|] == s[..|rest| + 1];
      } else if rest != [] {
        assert false;
      }
    }
  }

  /** Filtering keeps exactly the elements that pass. */
  lemma FilterExact<T>(s: seq<T>, keep: T -> bool)
    ensures forall x :: x in Filter(s, keep) <==> x in s && keep(x)
  {
    forall x ensures x in Filter(s, keep) <==> x in s && keep(x) {
      if x in Filter(s, keep) {
        var k :| 0 <= k < |Filter(s, keep)| && Filter(s, keep)[k] == x;
        FilterMember(s, keep, k);
      }
      if x in s && keep(x) {
        var m :| 0 <= m < |s| && s[m] == x;
        FilterComplete(s, keep, m);
      }
    }
  }

  /** The lists `f(x)` for the elements of `xs`, one after the other. */
  function FlatMap<T, U(!new)>(xs: seq<T>, f: T -> seq<U>): (r: seq<U>)
    ensures forall y :: y in r <==> exists k :: 0 <= k < |xs| && y in f(xs[k])
  {
    if |xs| == 0 then []
    else
      var init := xs[..|xs| - 1];
      assert forall k :: 0 <= k < |init| ==> init[k] == xs[k];
      FlatMap(init, f) + f(xs[|xs| - 1])
  }

  /** The distinct elements of `s` in order of first appearance. */
  function Dedup<T(==,!new)>(s: seq<T>): (r: seq<T>)
    ensures forall x :: x in r <==> x in s
    ensures forall i, j :: 0 <= i < j < |r| ==> r[i] != r[j]
  {
    if |s| == 0 then []
    else
      var d := Dedup(s[..|s| - 1]);
      assert forall x :: x in s <==> x in s[..|s| - 1] || x == s[|s| - 1];
      if s[|s| - 1] in d then d else d + [s[|s| - 1]]
  }

  /** Appending one element keeps it only when it is new. */
  lemma DedupSnoc<T(!new)>(s: seq<T>, x: T)
    ensures Dedup(s + [x]) == if x in Dedup(s) then Dedup(s) else Dedup(s) + [x]
  {
    assert (s + [x])[..|s + [x]| - 1] == s;
  }

  /** The first element always survives. */
  lemma {:induction false} DedupHead<T(!new)>(s: seq<T>)
    requires |s| >= 1
    ensures |Dedup(s)| >= 1 && Dedup(s)[0] == s[0]
  {
    if |s| > 1 {
      DedupHead(s[..|s| - 1]);
      assert s[..|s| - 1][0] == s[0];
    }
  }

  /**
   * The running (best, score) pair of a scan that replaces the best only on
   * a strictly higher score, starting from (None, 0.0): the first element
   * of top score, or none when no score is positive.
   */
  function FirstMax<T>(xs: seq<T>, score: T -> real): (r: (Option<T>, real))
    ensures r.1 >= 0.0
    ensures r.0.None? ==> r.1 == 0.0
    ensures r.0.None? <==> forall i :: 0 <= i < |xs| ==> score(xs[i]) <= 0.0
    ensures forall i :: 0 <= i < |xs| ==> score(xs[i]) <= r.1
    ensures r.0.Some? ==> exists k :: 0 <= k < |xs| && xs[k] == r.0.value && score(xs[k]) == r.1 &&
                            forall j :: 0 <= j < k ==> score(xs[j]) < r.1
  {
    if |xs| == 0 then (None, 0.0)
    else
      var prev := FirstMax(xs[..|xs| - 1], score);
      var x := xs[|xs| - 1];
      assert forall i :: 0 <= i < |xs| - 1 ==> xs[..|xs| - 1][i] == xs[i];
      if score(x) > prev.1 then (Some(x), score(x)) else prev
  }

  /** The values `f` gives for the elements of `xs` it maps to something, in order. */
  function FilterMap<T, U>(xs: seq<T>, f: T --> Option<U>): seq<U>
    requires forall k :: 0 <= k < |xs| ==> f.requires(xs[k])
  {
    if |xs| == 0 then []
    else
      var n := |xs| - 1;
      assert forall k :: 0 <= k < n ==> xs[..n][k] == xs[k];
      var prev := FilterMap(xs[..n], f);
      match f(xs[n])
      case Some(y) => prev + [y]
      case None => prev
  }

  lemma {:induction false} FilterMapLength<T, U>(xs: seq<T>, f: T --> Option<U>)
    requires forall k :: 0 <= k < |xs| ==> f.requires(xs[k])
    ensures |FilterMap(xs, f)| <= |xs|
    decreases |xs|
  {
    if |xs| > 0 {
      var n := |xs| - 1;
      assert forall k :: 0 <= k < n ==> xs[..n][k] == xs[k];
      FilterMapLength(xs[..n], f);
    }
  }

  lemma {:induction false} FilterMapKeep<T, U>(xs: seq<T>, f: T --> Option<U>)
    requires forall k :: 0 <= k < |xs| ==> f.requires(xs[k])
    ensures forall i :: 0 <= i < |xs| && f(xs[i]).Some? ==> f(xs[i]).value in FilterMap(xs, f)
    decreases |xs|
  {
    if |xs| > 0 {
      var n := |xs| - 1;
      assert forall k :: 0 <= k < n ==> xs[..n][k] == xs[k];
      FilterMapKeep(xs[..n], f);
    }
  }

  lemma {:induction false} FilterMapFrom<T, U(!new)>(xs: seq<T>, f: T --> Option<U>)
    requires forall k :: 0 <= k < |xs| ==> f.requires(xs[k])
    ensures forall y :: y in FilterMap(xs, f) ==> exists i :: 0 <= i < |xs| && f(xs[i]) == Some(y)
    decreases |xs|
  {
    if |xs| > 0 {
      var n := |xs| - 1;
      assert forall k :: 0 <= k < n ==> xs[..n][k] == xs[k];
      FilterMapFrom(xs[..n], f);
    }
  }

  lemma {:induction false} FilterMapAll<T, U>(xs: seq<T>, f: T --> Option<U>)
    requires forall k :: 0 <= k < |xs| ==> f.requires(xs[k])
    requires forall k :: 0 <= k < |xs| ==> f(xs[k]).Some?
    ensures |FilterMap(xs, f)| == |xs|
    ensures forall i :: 0 <= i < |xs| ==> Some(FilterMap(xs, f)[i]) == f(xs[i])
    decreases |xs|
  {
    if |xs| > 0 {
      var n := |xs| - 1;
      assert forall k :: 0 <= k < n ==> xs[..n][k] == xs[k];
      FilterMapAll(xs[..n], f);
    }
  }

  lemma {:induction false} FilterMapEmpty<T, U>(xs: seq<T>, f: T --> Option<U>)
    requires forall k :: 0 <= k < |xs| ==> f.requires(xs[k])
    ensures |FilterMap(xs, f)| == 0 <==> forall i :: 0 <= i < |xs| ==> f(xs[i]).None?
    decreases |xs|
  {
    if |xs| > 0 {
      var n := |xs| - 1;
      assert forall k :: 0 <= k < n ==> xs[..n][k] == xs[k];
      FilterMapEmpty(xs[..n], f);
    }
  }

  /** A map that keeps every element as it is leaves the sequence unchanged. */
  lemma {:induction false} FilterMapFixed<T>(xs: seq<T>, f: T --> Option<T>)
    requires forall k :: 0 <= k < |xs| ==> f.requires(xs[k]) && f(xs[k]) == Some(xs[k])
    ensures FilterMap(xs, f) == xs
    decreases |xs|
  {
    if |xs| > 0 {
      var n := |xs| - 1;
      assert forall k :: 0 <= k < n ==> xs[..n][k] == xs[k];
      FilterMapFixed(xs[..n], f);
      assert xs[..n] + [xs[n]] == xs;
    }
  }
}
