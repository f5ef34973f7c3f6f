/**
 * The skills screen: whether two scans show the same view (so scrolling
 * has stopped), the title band cropped for OCR, title normalisation, the
 * weighted choice of the matching target, and the purchase quotas.
 */
module Skills {
  import opened Wrappers
  import opened Strings
  import opened SkillNames
  import opened OcrText
  import opened Sorting
  import SkillMemory

  // ---------------------------------------------------------------------
  // Scene signatures and `_nearly_same`
  // ---------------------------------------------------------------------

  /** One signature item: a class name (or a normalised title) and its bucketed centre. */
  datatype SigItem = SigItem(name: string, x: int, y: int)

  type Pos = (int, int)

  /** Bucket tolerance on each axis. */
  const Tol := 1

  function Abs(x: int): nat { if x < 0 then -x else x }

  predicate Near(ax: int, ay: int, p: Pos) { Abs(ax - p.0) <= Tol && Abs(ay - p.1) <= Tol }

  function Metric(ax: int, ay: int, p: Pos): nat
  {
    var dx := Abs(ax - p.0);
    var dy := Abs(ay - p.1);
    if dx >= dy then dx else dy
  }

  /**
   * The unused position nearest to (ax, ay) within the tolerance, the first
   * one on ties, or -1 when none is near.
   */
  function Closest(pos: seq<Pos>, used: seq<bool>, ax: int, ay: int): (k: int)
    requires |used| == |pos|
    ensures -1 <= k < |pos|
    ensures k == -1 <==> forall j :: 0 <= j < |pos| && !used[j] ==> !Near(ax, ay, pos[j])
    ensures k >= 0 ==> !used[k] && Near(ax, ay, pos[k])
  {
    if |pos| == 0 then -1
    else
      var n := |pos| - 1;
      var k := Closest(pos[..n], used[..n], ax, ay);
      assert forall j :: 0 <= j < n ==> pos[..n][j] == pos[j] && used[..n][j] == used[j];
      if !used[n] && Near(ax, ay, pos[n]) && (k == -1 || Metric(ax, ay, pos[n]) < Metric(ax, ay, pos[k])) then n else k
  }

  /** The chosen position is nearest of the unused near ones, and strictly nearer than every earlier one. */
  lemma {:induction false} ClosestNearest(pos: seq<Pos>, used: seq<bool>, ax: int, ay: int)
    requires |used| == |pos|
    ensures var k := Closest(pos, used, ax, ay);
            k >= 0 ==> forall j :: 0 <= j < |pos| && !used[j] && Near(ax, ay, pos[j]) ==>
                          Metric(ax, ay, pos[k]) <= Metric(ax, ay, pos[j]) && (j < k ==> Metric(ax, ay, pos[k]) < Metric(ax, ay, pos[j]))
    decreases |pos|
  {
    if |pos| > 0 {
      var n := |pos| - 1;
      ClosestNearest(pos[..n], used[..n], ax, ay);
      assert forall j :: 0 <= j < n ==> pos[..n][j] == pos[j] && used[..n][j] == used[j];
    }
  }

  /** Once an exact hit is found, later positions cannot displace it. */
  lemma {:induction false} ClosestKeepsExact(pos: seq<Pos>, used: seq<bool>, ax: int, ay: int, i: nat)
    requires |used| == |pos| && i <= |pos|
    requires Closest(pos[..i], used[..i], ax, ay) >= 0
    requires Metric(ax, ay, pos[Closest(pos[..i], used[..i], ax, ay)]) == 0
    ensures Closest(pos, used, ax, ay) == Closest(pos[..i], used[..i], ax, ay)
    decreases |pos| - i
  {
    if i < |pos| {
      var k := Closest(pos[..i], used[..i], ax, ay);
      assert pos[..i + 1][..i] == pos[..i] && used[..i + 1][..i] == used[..i];
      assert Closest(pos[..i + 1], used[..i + 1], ax, ay) == k;
      ClosestKeepsExact(pos, used, ax, ay, i + 1);
    } else {
      assert pos[..i] == pos && used[..i] == used;
    }
  }

  /** Looking at one more position: it wins only when unused, near, and strictly nearer. */
  lemma ClosestStep(pos: seq<Pos>, used: seq<bool>, ax: int, ay: int, j: nat)
    requires |used| == |pos| && j < |pos|
    ensures var k := Closest(pos[..j], used[..j], ax, ay);
            Closest(pos[..j + 1], used[..j + 1], ax, ay) ==
              if !used[j] && Near(ax, ay, pos[j]) && (k == -1 || Metric(ax, ay, pos[j]) < Metric(ax, ay, pos[k])) then j else k
  {
    assert pos[..j + 1][..j] == pos[..j] && used[..j + 1][..j] == used[..j];
  }

  /** The per-axis bucket distances: within tolerance on both axes, and the larger of the two. */
  method Distance(p: Pos, ax: int, ay: int) returns (near: bool, m: nat)
    ensures near == Near(ax, ay, p) && m == Metric(ax, ay, p)
  {
    var dx, dy := Abs(ax - p.0), Abs(ay - p.1);
    near := dx <= Tol && dy <= Tol;
    m := if dx >= dy then dx else dy;
  }

  /** The search loop shared by both matchers: skip used slots, keep the strictly better metric, stop at an exact hit. */
  method FindClosest(pos: seq<Pos>, used: seq<bool>, ax: int, ay: int) returns (best: int)
    requires |used| == |pos|
    ensures best == Closest(pos, used, ax, ay)
  {
    best := -1;
    var bestMetric: Option<nat> := None;
    var j := 0;
    while j < |pos|
      invariant 0 <= j <= |pos|
      invariant best == Closest(pos[..j], used[..j], ax, ay)
      invariant bestMetric.None? <==> best == -1
      invariant best >= 0 ==> bestMetric == Some(Metric(ax, ay, pos[best]))
    {
      ClosestStep(pos, used, ax, ay, j);
      if !used[j] {
        var near, m := Distance(pos[j], ax, ay);
        if near {
          if bestMetric.None? || m < bestMetric.value {
            bestMetric := Some(m);
            best := j;
            if m == 0 {
              ClosestKeepsExact(pos, used, ax, ay, j + 1);
              return;
            }
          }
        }
      }
      j := j + 1;
    }
    assert pos[..j] == pos && used[..j] == used;
  }

  function AllFree(n: nat): (u: seq<bool>)
    ensures |u| == n && forall j :: 0 <= j < n ==> !u[j]
  {
    seq(n, j => false)
  }

  function Names(s: seq<SigItem>): (r: seq<string>)
    ensures |r| == |s| && forall i :: 0 <= i < |s| ==> r[i] == s[i].name
  {
    seq(|s|, i requires 0 <= i < |s| => s[i].name)
  }

  function PoolOf(pools: map<string, seq<Pos>>, name: string): seq<Pos>
  {
    if name in pools then pools[name] else []
  }

  /** Positions grouped by name, each group in signature order (`setdefault(...).append`). */
  function Pools(s: seq<SigItem>): (m: map<string, seq<Pos>>)
    ensures forall n :: n in m <==> n in Names(s)
  {
    if |s| == 0 then map[]
    else
      var init := s[..|s| - 1];
      var last := s[|s| - 1];
      assert forall n :: n in Names(s) <==> n in Names(init) || n == last.name by {
        assert forall i :: 0 <= i < |init| ==> Names(init)[i] == Names(s)[i];
      }
      var m := Pools(init);
      m[last.name := PoolOf(m, last.name) + [(last.x, last.y)]]
  }

  /** Every pooled position belongs to an item of that name. */
  lemma {:induction false} PoolsFromItems(s: seq<SigItem>, name: string, p: Pos)
    requires p in PoolOf(Pools(s), name)
    ensures exists i :: 0 <= i < |s| && s[i].name == name && (s[i].x, s[i].y) == p
  {
    if |s| > 0 {
      var init := s[..|s| - 1];
      var last := s[|s| - 1];
      if name == last.name && p == (last.x, last.y) {
        assert s[|s| - 1].name == name;
      } else {
        PoolsFromItems(init, name, p);
        var i :| 0 <= i < |init| && init[i].name == name && (init[i].x, init[i].y) == p;
        assert s[i] == init[i];
      }
    }
  }

  /** One more item appends its position to the pool of its name. */
  lemma PoolsStep(s: seq<SigItem>, i: nat)
    requires i < |s|
    ensures Pools(s[..i + 1]) == Pools(s[..i])[s[i].name := PoolOf(Pools(s[..i]), s[i].name) + [(s[i].x, s[i].y)]]
  {
    assert s[..i + 1][..i] == s[..i];
  }

  method BuildPools(s: seq<SigItem>) returns (pools: map<string, seq<Pos>>)
    ensures pools == Pools(s)
  {
    pools := map[];
    for i := 0 to |s|
      invariant pools == Pools(s[..i])
    {
      PoolsStep(s, i);
      var it := s[i];
      var pool := if it.name in pools then pools[it.name] else [];
      pools := pools[it.name := pool + [(it.x, it.y)]];
    }
    assert s[..|s|] == s;
  }

  function Remove(pool: seq<Pos>, k: nat): (r: seq<Pos>)
    requires k < |pool|
    ensures |r| == |pool| - 1 && forall p :: p in r ==> p in pool
  {
    pool[..k] + pool[k + 1..]
  }

  /** Each item of `a` in turn takes its closest same-name position from the pools, which it then leaves. */
  function MatchAll(a: seq<SigItem>, pools: map<string, seq<Pos>>): bool
    decreases |a|
  {
    if |a| == 0 then true
    else
      var pool := PoolOf(pools, a[0].name);
      var k := Closest(pool, AllFree(|pool|), a[0].x, a[0].y);
      if k == -1 then false
      else MatchAll(a[1..], pools[a[0].name := Remove(pool, k)])
  }

  /** When the greedy matching succeeds, every item has a same-name position within one bucket among the original pools. */
  lemma {:induction false} MatchAllPartners(a: seq<SigItem>, pools: map<string, seq<Pos>>, i: nat)
    requires MatchAll(a, pools) && i < |a|
    ensures exists p :: p in PoolOf(pools, a[i].name) && Near(a[i].x, a[i].y, p)
    decreases |a|
  {
    var pool := PoolOf(pools, a[0].name);
    var k := Closest(pool, AllFree(|pool|), a[0].x, a[0].y);
    if i == 0 {
      assert pool[k] in pool;
    } else {
      var rest := pools[a[0].name := Remove(pool, k)];
      MatchAllPartners(a[1..], rest, i - 1);
      assert a[1..][i - 1] == a[i];
      var p :| p in PoolOf(rest, a[i].name) && Near(a[i].x, a[i].y, p);
      assert p in PoolOf(pools, a[i].name);
    }
  }

  /** The positions the greedy matching pairs with the items of `a`, in order. */
  function Partners(a: seq<SigItem>, pools: map<string, seq<Pos>>): (ps: seq<Pos>)
    requires MatchAll(a, pools)
    ensures |ps| == |a|
    ensures forall i :: 0 <= i < |a| ==> Near(a[i].x, a[i].y, ps[i])
    decreases |a|
  {
    if |a| == 0 then []
    else
      var pool := PoolOf(pools, a[0].name);
      var k := Closest(pool, AllFree(|pool|), a[0].x, a[0].y);
      var rest := Partners(a[1..], pools[a[0].name := Remove(pool, k)]);
      assert forall i :: 1 <= i < |a| ==> a[i] == a[1..][i - 1];
      [pool[k]] + rest
  }

  /** The partner positions of the items of `a` named `n`, with multiplicity. */
  function Named(a: seq<SigItem>, ps: seq<Pos>, n: string): multiset<Pos>
    requires |ps| == |a|
    decreases |a|
  {
    if |a| == 0 then multiset{}
    else (if a[0].name == n then multiset{ps[0]} else multiset{}) + Named(a[1..], ps[1..], n)
  }

  /** The positions of the items of `s` named `n`, with multiplicity. */
  function PosOf(s: seq<SigItem>, n: string): multiset<Pos>
    decreases |s|
  {
    if |s| == 0 then multiset{}
    else
      var last := s[|s| - 1];
      PosOf(s[..|s| - 1], n) + (if last.name == n then multiset{(last.x, last.y)} else multiset{})
  }

  /** A name's pool holds exactly the positions of the items of that name. */
  lemma {:induction false} PoolsBag(s: seq<SigItem>, n: string)
    ensures multiset(PoolOf(Pools(s), n)) == PosOf(s, n)
    decreases |s|
  {
    if |s| > 0 {
      PoolsBag(s[..|s| - 1], n);
    }
  }

  /** Each item named `n` contributes one partner position. */
  lemma {:induction false} NamedCount(a: seq<SigItem>, ps: seq<Pos>, n: string)
    requires |ps| == |a|
    ensures |Named(a, ps, n)| == multiset(Names(a))[n]
    decreases |a|
  {
    if |a| > 0 {
      NamedCount(a[1..], ps[1..], n);
      assert Names(a) == [a[0].name] + Names(a[1..]);
    }
  }

  /** Each item named `n` contributes one position. */
  lemma {:induction false} PosOfCount(s: seq<SigItem>, n: string)
    ensures |PosOf(s, n)| == multiset(Names(s))[n]
    decreases |s|
  {
    if |s| > 0 {
      PosOfCount(s[..|s| - 1], n);
      assert Names(s) == Names(s[..|s| - 1]) + [s[|s| - 1].name];
    }
  }

  lemma SubBagOfSameSize(x: multiset<Pos>, y: multiset<Pos>)
    requires x <= y && |x| == |y|
    ensures x == y
  {
    assert y == x + (y - x);
  }

  lemma RemoveBag(pool: seq<Pos>, k: nat)
    requires k < |pool|
    ensures multiset(Remove(pool, k)) + multiset{pool[k]} == multiset(pool)
  {
    assert pool == pool[..k] + [pool[k]] + pool[k + 1..];
  }

  /** No position is used twice: the partners of each name fit among the pooled positions of that name. */
  lemma {:induction false} PartnersFit(a: seq<SigItem>, pools: map<string, seq<Pos>>, n: string)
    requires MatchAll(a, pools)
    ensures Named(a, Partners(a, pools), n) <= multiset(PoolOf(pools, n))
    decreases |a|
  {
    if |a| > 0 {
      var pool := PoolOf(pools, a[0].name);
      var k := Closest(pool, AllFree(|pool|), a[0].x, a[0].y);
      var pools' := pools[a[0].name := Remove(pool, k)];
      var ps := Partners(a, pools);
      PartnersFit(a[1..], pools', n);
      assert ps[0] == pool[k] && ps[1..] == Partners(a[1..], pools');
      if a[0].name == n {
        RemoveBag(pool, k);
      } else {
        assert PoolOf(pools', n) == PoolOf(pools, n);
      }
    }
  }

  /** The greedy loop of `_nearly_same` over `a`, popping each match from its pool. */
  method MatchSignatures(a: seq<SigItem>, pools0: map<string, seq<Pos>>) returns (ok: bool)
    ensures ok == MatchAll(a, pools0)
  {
    var pools := pools0;
    for i := 0 to |a|
      invariant MatchAll(a, pools0) == MatchAll(a[i..], pools)
    {
      var it := a[i];
      var pool := if it.name in pools then pools[it.name] else [];
      var k := FindClosest(pool, AllFree(|pool|), it.x, it.y);
      if k == -1 {
        return false;
      }
      assert a[i..][1..] == a[i + 1..];
      pools := pools[it.name := Remove(pool, k)];
    }
    return true;
  }

  // The OCR title check: greedy matching with a `used` array per title.

  /** How many of `apos` the greedy pass pairs with distinct unused positions of `bpos`. */
  function GreedyCount(apos: seq<Pos>, bpos: seq<Pos>, used: seq<bool>): (n: nat)
    requires |used| == |bpos|
    ensures n <= |apos|
    decreases |apos|
  {
    if |apos| == 0 then 0
    else
      var k := Closest(bpos, used, apos[0].0, apos[0].1);
      if k == -1 then GreedyCount(apos[1..], bpos, used)
      else 1 + GreedyCount(apos[1..], bpos, used[k := true])
  }

  method CountTitleMatches(apos: seq<Pos>, bpos: seq<Pos>) returns (matched: nat)
    ensures matched == GreedyCount(apos, bpos, AllFree(|bpos|))
  {
    var used := new bool[|bpos|](j => false);
    assert used[..] == AllFree(|bpos|);
    matched := 0;
    for i := 0 to |apos|
      invariant used.Length == |bpos|
      invariant matched + GreedyCount(apos[i..], bpos, used[..]) == GreedyCount(apos, bpos, AllFree(|bpos|))
    {
      assert apos[i..][1..] == apos[i + 1..];
      var best := FindClosest(bpos, used[..], apos[i].0, apos[i].1);
      if best != -1 {
        used[best] := true;
        matched := matched + 1;
      }
    }
  }

  /** Title matches summed over the titles `keys` of `A`. */
  function TitleMatches(keys: seq<string>, A: map<string, seq<Pos>>, B: map<string, seq<Pos>>): nat
  {
    if |keys| == 0 then 0
    else
      var t := keys[|keys| - 1];
      var bpos := PoolOf(B, t);
      TitleMatches(keys[..|keys| - 1], A, B) + (if |bpos| == 0 then 0 else GreedyCount(PoolOf(A, t), bpos, AllFree(|bpos|)))
  }

  /** `sum(len(v) for v in A.values())` over the titles `keys`. */
  function PooledTotal(keys: seq<string>, A: map<string, seq<Pos>>): nat
  {
    if |keys| == 0 then 0 else PooledTotal(keys[..|keys| - 1], A) + |PoolOf(A, keys[|keys| - 1])|
  }

  /** Python's `int(0.6 * max(1, total))`. */
  function SixtyPercent(total: nat): nat
  {
    var t := if total >= 1 then total else 1;
    (0.6 * t as real).Floor
  }

  /** The OCR overlap rule: at least two matched titles and at least 60% of the seen titles. */
  function OcrSame(aOcr: seq<SigItem>, bOcr: seq<SigItem>): bool
  {
    if |aOcr| == 0 || |bOcr| == 0 then true
    else
      var A := Pools(aOcr);
      var B := Pools(bOcr);
      var keys := Dedup(Names(aOcr));
      var matched := TitleMatches(keys, A, B);
      matched >= 2 && matched >= SixtyPercent(PooledTotal(keys, A))
  }

  /** `_nearly_same`. */
  function NearlySame(a: seq<SigItem>, b: seq<SigItem>, aOcr: Option<seq<SigItem>>, bOcr: Option<seq<SigItem>>): bool
  {
    |a| == |b| && multiset(Names(a)) == multiset(Names(b)) && MatchAll(a, Pools(b)) &&
    (aOcr.Some? && bOcr.Some? ==> OcrSame(aOcr.value, bOcr.value))
  }

  /** The loop over the titles of `A`: matched titles and the number of titles seen. */
  method MatchTitles(keys: seq<string>, A: map<string, seq<Pos>>, B: map<string, seq<Pos>>) returns (matched: nat, total: nat)
    ensures matched == TitleMatches(keys, A, B) && total == PooledTotal(keys, A)
  {
    matched, total := 0, 0;
    for i := 0 to |keys|
      invariant matched == TitleMatches(keys[..i], A, B)
      invariant total == PooledTotal(keys[..i], A)
    {
      assert keys[..i + 1][..i] == keys[..i];
      var t := keys[i];
      var apos := PoolOf(A, t);
      total := total + |apos|;
      var bpos := PoolOf(B, t);
      if |bpos| == 0 {
        continue;
      }
      var m := CountTitleMatches(apos, bpos);
      matched := matched + m;
    }
    assert keys[..|keys|] == keys;
  }

  method OcrOverlap(aOcr: seq<SigItem>, bOcr: seq<SigItem>) returns (same: bool)
    ensures same == OcrSame(aOcr, bOcr)
  {
    if |aOcr| == 0 || |bOcr| == 0 {
      return true;
    }
    var A := BuildPools(aOcr);
    var B := BuildPools(bOcr);
    var matched, total := MatchTitles(Dedup(Names(aOcr)), A, B);
    return matched >= 2 && matched >= SixtyPercent(total);
  }

  method NearlySameView(a: seq<SigItem>, b: seq<SigItem>, aOcr: Option<seq<SigItem>>, bOcr: Option<seq<SigItem>>)
    returns (same: bool)
    ensures same == NearlySame(a, b, aOcr, bOcr)
  {
    if |a| != |b| {
      return false;
    }
    if multiset(Names(a)) != multiset(Names(b)) {
      return false;
    }
    var pools := BuildPools(b);
    var ok := MatchSignatures(a, pools);
    if !ok {
      return false;
    }
    if aOcr.Some? && bOcr.Some? {
      same := OcrOverlap(aOcr.value, bOcr.value);
      return;
    }
    return true;
  }

  /**
   * Two views judged the same have equal length, equal per-class counts, and
   * every item of `a` has an item of `b` with its name within one bucket.
   */
  lemma NearlySameMeans(a: seq<SigItem>, b: seq<SigItem>, aOcr: Option<seq<SigItem>>, bOcr: Option<seq<SigItem>>)
    requires NearlySame(a, b, aOcr, bOcr)
    ensures |a| == |b| && multiset(Names(a)) == multiset(Names(b))
    ensures forall i :: 0 <= i < |a| ==> exists j :: 0 <= j < |b| && b[j].name == a[i].name && Near(a[i].x, a[i].y, (b[j].x, b[j].y))
    ensures var ps := Partners(a, Pools(b));
            (forall i :: 0 <= i < |a| ==> Near(a[i].x, a[i].y, ps[i])) &&
            forall n :: Named(a, ps, n) == PosOf(b, n)
  {
    forall n
      ensures Named(a, Partners(a, Pools(b)), n) == PosOf(b, n)
    {
      PartnersFit(a, Pools(b), n);
      PoolsBag(b, n);
      NamedCount(a, Partners(a, Pools(b)), n);
      PosOfCount(b, n);
      SubBagOfSameSize(Named(a, Partners(a, Pools(b)), n), PosOf(b, n));
    }
    forall i | 0 <= i < |a|
      ensures exists j :: 0 <= j < |b| && b[j].name == a[i].name && Near(a[i].x, a[i].y, (b[j].x, b[j].y))
    {
      MatchAllPartners(a, Pools(b), i);
      var p :| p in PoolOf(Pools(b), a[i].name) && Near(a[i].x, a[i].y, p);
      PoolsFromItems(b, a[i].name, p);
    }
  }

  /** Views of different size or class counts are never the same; an empty OCR side leaves the decision to the layout. */
  lemma NearlySameCases(a: seq<SigItem>, b: seq<SigItem>, aOcr: Option<seq<SigItem>>, bOcr: Option<seq<SigItem>>)
    ensures |a| != |b| || multiset(Names(a)) != multiset(Names(b)) ==> !NearlySame(a, b, aOcr, bOcr)
    ensures aOcr.None? || bOcr.None? || aOcr == Some([]) || bOcr == Some([]) ==>
              NearlySame(a, b, aOcr, bOcr) == (|a| == |b| && multiset(Names(a)) == multiset(Names(b)) && MatchAll(a, Pools(b)))
  {
  }

  /** With titles on both sides, sameness needs at least two matched titles. */
  lemma OcrSameNeedsTwo(aOcr: seq<SigItem>, bOcr: seq<SigItem>)
    requires |aOcr| > 0 && |bOcr| > 0 && OcrSame(aOcr, bOcr)
    ensures TitleMatches(Dedup(Names(aOcr)), Pools(aOcr), Pools(bOcr)) >= 2
  {
  }

  // ---------------------------------------------------------------------
  // The title band and title normalisation
  // ---------------------------------------------------------------------

  /** `_skill_title_roi`: skip the icon, keep a band near the top, leave a right margin. */
  function SkillTitleRoi(x1: int, y1: int, x2: int, y2: int): (r: (int, int, int, int))
    ensures r.2 > r.0 && r.3 > r.1
    ensures x2 > x1 ==> x1 <= r.0 && r.2 <= x2
    ensures y2 > y1 ==> y1 <= r.1 && r.3 <= y2
  {
    var w := if x2 - x1 >= 1 then x2 - x1 else 1;
    var h := if y2 - y1 >= 1 then y2 - y1 else 1;
    var left := x1 + (w as real * 0.10).Floor;
    var right := x2 - (w as real * 0.25).Floor;
    var top := y1 + (h as real * 0.08).Floor;
    var bot := y1 + (h as real * 0.38).Floor;
    (left, top, if right <= left then left + 1 else right, if bot <= top then top + 1 else bot)
  }

  /** On a real box the band needs no fix-up: it is the fixed fractions of the box. */
  lemma TitleRoiInside(x1: int, y1: int, x2: int, y2: int)
    requires x2 > x1
    ensures SkillTitleRoi(x1, y1, x2, y2).2 == x2 - ((x2 - x1) as real * 0.25).Floor
  {
  }

  /** The characters `_norm_title` deletes. */
  const TitlePunct: set<char> := {'·', '•', '|', '[', ']', '(', ')', '{', '}', ':', ';', ',', '.', '!', '?', '"', '\'', '`', '’', '“', '”', '○', '◎', '×'}

  predicate TitleChar(c: char) { c !in TitlePunct && c != '-' }

  /** `s.translate(str.maketrans("", "", chars))`. */
  function DeleteChars(s: string, cs: set<char>): (r: string)
    ensures |r| <= |s|
    ensures forall k :: 0 <= k < |r| ==> r[k] !in cs
    ensures (forall k :: 0 <= k < |s| ==> s[k] !in cs) ==> r == s
  {
    if |s| == 0 then "" else (if s[0] in cs then "" else [s[0]]) + DeleteChars(s[1..], cs)
  }

  /** `_norm_title`: digit repairs, strip, lower-case, one space between words, punctuation and grade marks dropped, hyphens to spaces. */
  function NormTitle(s: string, u: UnicodeOps): (r: string)
    ensures AllOf(r, TitleChar) && NoEdgeSpace(r)
  {
    var s1 := u.lower(Strip(FixConfusions(s)));
    if s1 == "" then ""
    else
      var s2 := ReplaceChar(DeleteChars(CollapseWhitespace(s1), TitlePunct), '-', ' ');
      DeletedAreTitleChars(CollapseWhitespace(s1));
      StripAllOf(s2, TitleChar);
      Strip(s2)
  }

  lemma DeletedAreTitleChars(s: string)
    ensures AllOf(ReplaceChar(DeleteChars(s, TitlePunct), '-', ' '), TitleChar)
  {
    var d := DeleteChars(s, TitlePunct);
    var r := ReplaceChar(d, '-', ' ');
    forall k | 0 <= k < |r| ensures TitleChar(r[k]) {
      assert d[k] !in TitlePunct;
    }
  }

  // ---------------------------------------------------------------------
  // The weighted choice among matching targets
  // ---------------------------------------------------------------------

  /** A target the matcher accepted for a title, with its score. */
  datatype Match = Match(target: string, score: real, reason: string)

  const UpweightBonus: real := 0.05

  /** The key terms as written: "left-handed" keeps its hyphen. */
  const UpweightKeysAsWritten: seq<string> := ["groundwork", "left-handed", "corner connoisseur"]

  /** The key terms as normalised titles spell them. */
  const UpweightKeys: seq<string> := ["groundwork", "left handed", "corner connoisseur"]

  /** Some key term occurs in the title. */
  predicate AnyContains(title: string, keys: seq<string>)
    decreases |keys|
  {
    |keys| > 0 && (Contains(title, keys[0]) || AnyContains(title, keys[1..]))
  }

  /** The bonus a normalised target title earns from the key terms. */
  function Boost(normTarget: string, keys: seq<string>): (b: real)
    ensures b == UpweightBonus <==> exists i :: 0 <= i < |keys| && Contains(normTarget, keys[i])
    ensures b == 0.0 <==> forall i :: 0 <= i < |keys| ==> !Contains(normTarget, keys[i])
  {
    AnyContainsMeans(normTarget, keys);
    if AnyContains(normTarget, keys) then UpweightBonus else 0.0
  }

  lemma {:induction false} AnyContainsMeans(title: string, keys: seq<string>)
    ensures AnyContains(title, keys) <==> exists i :: 0 <= i < |keys| && Contains(title, keys[i])
    decreases |keys|
  {
    if |keys| > 0 {
      AnyContainsMeans(title, keys[1..]);
      if AnyContains(title, keys[1..]) {
        var i :| 0 <= i < |keys| - 1 && Contains(title, keys[1..][i]);
        assert Contains(title, keys[i + 1]);
      }
      if exists i :: 0 <= i < |keys| && Contains(title, keys[i]) {
        var i :| 0 <= i < |keys| && Contains(title, keys[i]);
        if i > 0 {
          assert keys[1..][i - 1] == keys[i];
        }
      }
    }
  }

  /** A title without hyphens contains no hyphenated key. */
  lemma NoHyphenatedKey(n: string)
    requires AllOf(n, TitleChar)
    ensures !Contains(n, "left-handed")
  {
    assert "left-handed"[4] == '-';
    if Contains(n, "left-handed") {
      ContainsHasChar(n, "left-handed", 4);
    }
  }

  /** No normalised title contains "left-handed", so with the keys as written that term never earns its bonus. */
  lemma LeftHandedKeyIsDead(target: string, u: UnicodeOps)
    ensures Boost(NormTitle(target, u), UpweightKeysAsWritten) ==
            Boost(NormTitle(target, u), ["groundwork", "corner connoisseur"])
  {
    NoHyphenatedKey(NormTitle(target, u));
  }

  /** ASCII case mapping, enough for the titles below. */
  const AsciiOps: UnicodeOps := UnicodeOps(s => s, c => false, Lower)

  /** A single word free of punctuation passes the middle steps of `_norm_title` unchanged. */
  lemma PlainWordClean(l: string)
    requires IsWord(l) && forall k :: 0 <= k < |l| ==> l[k] !in TitlePunct
    ensures DeleteChars(CollapseWhitespace(l), TitlePunct) == l
  {
    WordsOfWord(l);
  }

  lemma HyphenToSpace(l: string)
    requires l == "left-handed"
    ensures ReplaceChar(l, '-', ' ') == "left handed"
  {
  }

  lemma LowerLeftHanded(t: string)
    requires t == "Left-Handed"
    ensures AsciiOps.lower(Strip(FixConfusions(t))) == "left-handed"
  {
    assert forall k :: 0 <= k < |t| ==> t[k] != '0' && t[k] != '6';
    assert FixConfusions(t) == t;
    StripNoEdge(t);
  }

  lemma CleanLeftHanded(l: string)
    requires l == "left-handed"
    ensures DeleteChars(CollapseWhitespace(l), TitlePunct) == l
  {
    PlainWordClean(l);
  }

  /** The last steps of `NormTitle` once the lowered text is known and not blank. */
  lemma NormTitleOfLowered(t: string, u: UnicodeOps, s1: string)
    requires s1 == u.lower(Strip(FixConfusions(t))) && s1 != ""
    ensures NormTitle(t, u) == Strip(ReplaceChar(DeleteChars(CollapseWhitespace(s1), TitlePunct), '-', ' '))
  {
  }

  /** The title "Left-Handed" normalises to "left handed". */
  lemma NormLeftHanded(t: string)
    requires t == "Left-Handed"
    ensures NormTitle(t, AsciiOps) == "left handed"
  {
    var s1 := AsciiOps.lower(Strip(FixConfusions(t)));
    assert s1 == "left-handed" by { LowerLeftHanded(t); }
    assert DeleteChars(CollapseWhitespace(s1), TitlePunct) == s1 by { CleanLeftHanded(s1); }
    assert ReplaceChar(s1, '-', ' ') == "left handed" by { HyphenToSpace(s1); }
    assert Strip("left handed") == "left handed" by { StripNoEdge("left handed"); }
    NormTitleOfLowered(t, AsciiOps, s1);
  }

  /** Neither of the other key terms occurs in "left handed". */
  lemma OtherKeysAbsent(n: string)
    requires n == "left handed"
    ensures !Contains(n, "groundwork") && !Contains(n, "corner connoisseur")
  {
    assert "groundwork"[0] == 'g' && "corner connoisseur"[0] == 'c';
    assert forall k :: 0 <= k < |n| ==> n[k] != 'g' && n[k] != 'c';
    if Contains(n, "groundwork") {
      ContainsHasChar(n, "groundwork", 0);
    }
    if Contains(n, "corner connoisseur") {
      ContainsHasChar(n, "corner connoisseur", 0);
    }
  }

  /** On "Left-Handed" the corrected key earns the bonus and the key as written does not. */
  lemma LeftHandedExample()
    ensures Boost(NormTitle("Left-Handed", AsciiOps), UpweightKeys) == UpweightBonus
    ensures Boost(NormTitle("Left-Handed", AsciiOps), UpweightKeysAsWritten) == 0.0
  {
    var n := "left handed";
    NormLeftHanded("Left-Handed");
    assert StartsWith(n, UpweightKeys[1]);
    LeftHandedKeyIsDead("Left-Handed", AsciiOps);
    OtherKeysAbsent(n);
  }

  /** The score a match competes with: its matcher score plus the key-term bonus. */
  function Weighted(u: UnicodeOps): Match -> real
  {
    (m: Match) => m.score + Boost(NormTitle(m.target, u), UpweightKeys)
  }

  /** The selection loop: the first match of highest weighted score, if any scores above zero. */
  method WeightedBest(matches: seq<Match>, u: UnicodeOps) returns (best: Option<Match>, bestScore: real)
    ensures (best, bestScore) == FirstMax(matches, Weighted(u))
  {
    best, bestScore := None, 0.0;
    for i := 0 to |matches|
      invariant (best, bestScore) == FirstMax(matches[..i], Weighted(u))
    {
      assert matches[..i + 1][..i] == matches[..i];
      var normalized := NormTitle(matches[i].target, u);
      var weighted := matches[i].score + Boost(normalized, UpweightKeys);
      assert Weighted(u)(matches[..i + 1][i]) == weighted;
      if weighted > bestScore {
        best, bestScore := Some(matches[i]), weighted;
      }
    }
    assert matches[..|matches|] == matches;
  }

  // ---------------------------------------------------------------------
  // Purchase quotas and the buying loop
  // ---------------------------------------------------------------------

  /** Targets marked ◎ are bought twice, all others once. */
  function Quota(target: string): (q: int)
    ensures 1 <= q <= 2 && (q == 2 <==> HasChar(target, '◎'))
  {
    if HasChar(target, '◎') then 2 else 1
  }

  function DesiredCounts(targets: seq<string>): (m: map<string, int>)
    ensures forall t :: t in m <==> t in targets
    ensures forall t :: t in m ==> m[t] == Quota(t)
  {
    map t | t in targets :: Quota(t)
  }

  function GetOr(m: map<string, int>, k: string, d: int): int
  {
    if k in m then m[k] else d
  }

  /** The grade used for memory look-ups: from the matched name, else from the OCR text. */
  function SquareGrade(bestName: Option<string>, rawText: string): (g: Option<char>)
    ensures g.Some? ==> g.value in GradeChars
  {
    var fromName := GradeFromName(bestName);
    if fromName.Some? then fromName else GradeFromName(Some(rawText))
  }

  function GradeText(g: Option<char>): Option<string>
  {
    if g.Some? then Some([g.value]) else None
  }

  /** `_already_bought`, reached only with a canonical name: an exact grade match in the bought bucket. */
  function AlreadyBought(bought: SkillMemory.SkillMap, canonical: Option<string>, grade: Option<char>): bool
  {
    canonical.Some? && grade.Some? && SkillMemory.Has(bought, canonical.value, GradeText(grade))
  }

  /** Whether a square's best match is clicked, before the memory check. */
  predicate UnderQuota(purchases: map<string, int>, desired: map<string, int>, bestName: Option<string>,
                       containsAny: bool, bestScore: real, threshold: real)
  {
    bestName.Some? && (containsAny || bestScore >= threshold) &&
    GetOr(purchases, bestName.value, 0) < GetOr(desired, bestName.value, 1)
  }

  /** No name was bought more often than its quota. */
  predicate QuotaKept(purchases: map<string, int>, desired: map<string, int>)
  {
    forall t :: t in purchases ==> 0 <= purchases[t] <= GetOr(desired, t, 1)
  }

  /** One more purchase of `name`. */
  function Counted(purchases: map<string, int>, name: string): (r: map<string, int>)
    ensures name in r && r[name] == GetOr(purchases, name, 0) + 1
    ensures forall t :: t != name ==> GetOr(r, t, 0) == GetOr(purchases, t, 0)
  {
    purchases[name := GetOr(purchases, name, 0) + 1]
  }

  /** Buying under quota keeps the quota. */
  lemma BuyKeepsQuota(purchases: map<string, int>, desired: map<string, int>, name: string)
    requires QuotaKept(purchases, desired) && GetOr(purchases, name, 0) < GetOr(desired, name, 1)
    requires GetOr(purchases, name, 0) >= 0
    ensures QuotaKept(Counted(purchases, name), desired)
  {
  }

  /** One skill square as the scan sees it. */
  datatype Square = Square(x1: int, y1: int, x2: int, y2: int, buyProb: Option<real>, rawText: string, matches: seq<Match>)

  /** One pass of the scan: the squares, and the detector signature of the frame. */
  datatype Pass = Pass(squares: seq<Square>, yoloSig: seq<SigItem>)

  datatype BuyStatus = Success | NoBuy | ExitFailed

  datatype BuyResult = BuyResult(status: BuyStatus, clickedAny: bool, exitRecovered: bool)

  /** The active-button threshold of the BUY classifier. */
  const ActiveProb: real := 0.55

  /** `int(n / 2)`: division truncated toward zero. */
  function HalfTrunc(n: int): int
  {
    if n >= 0 then n / 2 else -((-n) / 2)
  }

  /** The OCR title signature entry of a square, when its normalised title is non-empty. */
  function TitleSig(sq: Square, u: UnicodeOps): (r: Option<SigItem>)
    ensures r.Some? ==> r.value.name == NormTitle(sq.rawText, u) != ""
  {
    var t := NormTitle(sq.rawText, u);
    if t == "" then None else Some(SigItem(t, HalfTrunc(sq.x1 + sq.x2) / 8, HalfTrunc(sq.y1 + sq.y2) / 8))
  }

  /** The BUY button of a square is present and classified active. */
  predicate Active(sq: Square)
  {
    sq.buyProb.Some? && sq.buyProb.value >= ActiveProb
  }

  /** The OCR title signature of a frame: the non-empty titles of its active squares, in order. */
  function TitleSignature(squares: seq<Square>, u: UnicodeOps): (sig: seq<SigItem>)
    ensures |sig| <= |squares|
    ensures forall k :: 0 <= k < |sig| ==> sig[k].name != ""
  {
    if |squares| == 0 then []
    else
      var last := squares[|squares| - 1];
      var t := if Active(last) then TitleSig(last, u) else None;
      TitleSignature(squares[..|squares| - 1], u) + (if t.Some? then [t.value] else [])
  }

  /** No count went down and no name disappeared. */
  predicate Grew(before: map<string, int>, after: map<string, int>)
  {
    forall t :: t in before ==> t in after && after[t] >= before[t]
  }

  lemma GrewTrans(a: map<string, int>, b: map<string, int>, c: map<string, int>)
    requires Grew(a, b) && Grew(b, c)
    ensures Grew(a, c)
  {
  }

  /** Counts that only grow and come back to where they were did not change. */
  lemma GrewAntisym(a: map<string, int>, b: map<string, int>)
    requires Grew(a, b) && Grew(b, a)
    ensures a == b
  {
    assert a.Keys == b.Keys;
  }

  /** Once a count went up it stays changed. */
  lemma GrewStrict(a: map<string, int>, b: map<string, int>, c: map<string, int>)
    requires Grew(a, b) && Grew(b, c) && a != b
    ensures a != c
  {
    if a == c {
      GrewAntisym(a, b);
    }
  }

  /** What scanning changes: the purchase counts and the seen and bought tables of the skill memory. */
  datatype ScanState = ScanState(purchases: map<string, int>, seen: SkillMemory.SkillMap, bought: SkillMemory.SkillMap)

  /** What a scan reads but does not change: the quotas, the match threshold and the recording context. */
  datatype ScanEnv = ScanEnv(desired: map<string, int>, threshold: real, u: UnicodeOps, dateKey: Option<string>, now: real)

  /** The target the square's best weighted match points at, if any scores above zero. */
  function BestName(sq: Square, u: UnicodeOps): Option<string>
  {
    var best := FirstMax(sq.matches, Weighted(u)).0;
    if best.Some? then Some(best.value.target) else None
  }

  /** The canonical skill name and the grade text a square records. */
  function SquareSkill(sq: Square, u: UnicodeOps): (Option<string>, Option<string>)
  {
    var name := BestName(sq, u);
    (CanonicalSkillName(name), GradeText(SquareGrade(name, sq.rawText)))
  }

  /** Whether scanning `sq` from `st` clicks its buy button. */
  predicate Buys(st: ScanState, env: ScanEnv, sq: Square)
  {
    var name := BestName(sq, env.u);
    Active(sq) &&
    UnderQuota(st.purchases, env.desired, name, |sq.matches| > 0, FirstMax(sq.matches, Weighted(env.u)).1, env.threshold) &&
    !AlreadyBought(st.bought, CanonicalSkillName(name), SquareGrade(name, sq.rawText))
  }

  /** `record_seen`/`record_bought` of a skill, when it has a canonical name. */
  function RecordSkill(m: SkillMemory.SkillMap, skill: (Option<string>, Option<string>), env: ScanEnv): SkillMemory.SkillMap
  {
    if skill.0.Some? then SkillMemory.RecordIn(m, skill.0.value, skill.1, env.dateKey, None, true, 1, env.now) else m
  }

  /**
   * One square of `_scan_and_click_buys`: an active square records its canonical skill as
   * seen; a click adds one purchase of the best name and records the skill as bought.
   */
  function SquareStep(st: ScanState, env: ScanEnv, sq: Square): ScanState
  {
    if !Active(sq) then st
    else
      var skill := SquareSkill(sq, env.u);
      var seen := RecordSkill(st.seen, skill, env);
      if Buys(st, env, sq) then
        ScanState(Counted(st.purchases, BestName(sq, env.u).value), seen, RecordSkill(st.bought, skill, env))
      else ScanState(st.purchases, seen, st.bought)
  }

  /** `Buys` in the terms `ConsiderSquare` is stated in. */
  lemma BuysTerms(st: ScanState, env: ScanEnv, sq: Square, bestName: Option<string>, bestScore: real)
    requires Active(sq)
    requires bestName == BestName(sq, env.u) && bestScore == FirstMax(sq.matches, Weighted(env.u)).1
    ensures Buys(st, env, sq) <==>
            UnderQuota(st.purchases, env.desired, bestName, |sq.matches| > 0, bestScore, env.threshold) &&
            !AlreadyBought(st.bought, CanonicalSkillName(bestName), SquareGrade(bestName, sq.rawText))
  {
  }

  /** `RecordSkill` in the terms `ConsiderSquare` is stated in. */
  lemma RecordTerms(m: SkillMemory.SkillMap, env: ScanEnv, sq: Square, bestName: Option<string>)
    requires bestName == BestName(sq, env.u)
    ensures var canonical := CanonicalSkillName(bestName);
            var grade := SquareGrade(bestName, sq.rawText);
            RecordSkill(m, SquareSkill(sq, env.u), env) ==
              (if canonical.Some? then SkillMemory.RecordIn(m, canonical.value, GradeText(grade), env.dateKey, None, true, 1, env.now) else m)
  {
  }

  /** On an active square that is bought, the step counts the purchase and records the skill as seen and bought. */
  lemma StepBuys(st: ScanState, env: ScanEnv, sq: Square, name: string)
    requires Active(sq) && Buys(st, env, sq) && BestName(sq, env.u) == Some(name)
    ensures SquareStep(st, env, sq).purchases == Counted(st.purchases, name)
    ensures SquareStep(st, env, sq).seen == RecordSkill(st.seen, SquareSkill(sq, env.u), env)
    ensures SquareStep(st, env, sq).bought == RecordSkill(st.bought, SquareSkill(sq, env.u), env)
  {
  }

  /** On an active square that is not bought, the step only records the skill as seen. */
  lemma StepSkips(st: ScanState, env: ScanEnv, sq: Square)
    requires Active(sq) && !Buys(st, env, sq)
    ensures SquareStep(st, env, sq) == ScanState(st.purchases, RecordSkill(st.seen, SquareSkill(sq, env.u), env), st.bought)
  {
  }

  /** A square's click raises the count of its best name by one and leaves every other count as it was. */
  lemma SquareStepCounts(st: ScanState, env: ScanEnv, sq: Square)
    ensures var st' := SquareStep(st, env, sq);
            forall t :: GetOr(st'.purchases, t, 0) ==
                          GetOr(st.purchases, t, 0) + (if Buys(st, env, sq) && BestName(sq, env.u) == Some(t) then 1 else 0)
    ensures var st' := SquareStep(st, env, sq);
            !Buys(st, env, sq) ==> st'.purchases == st.purchases && st'.bought == st.bought
    ensures !Active(sq) ==> SquareStep(st, env, sq) == st
  {
  }

  /** One pass over the squares of a frame, in order. */
  function ScanAll(st: ScanState, env: ScanEnv, squares: seq<Square>): ScanState
    decreases |squares|
  {
    if |squares| == 0 then st
    else SquareStep(ScanAll(st, env, squares[..|squares| - 1]), env, squares[|squares| - 1])
  }

  /** A pass never lowers a count. */
  lemma {:induction false} ScanAllGrows(st: ScanState, env: ScanEnv, squares: seq<Square>)
    ensures forall t :: GetOr(ScanAll(st, env, squares).purchases, t, 0) >= GetOr(st.purchases, t, 0)
    decreases |squares|
  {
    if |squares| > 0 {
      var init := squares[..|squares| - 1];
      var mid := ScanAll(st, env, init);
      assert ScanAll(st, env, squares) == SquareStep(mid, env, squares[|squares| - 1]);
      ScanAllGrows(st, env, init);
      SquareStepCounts(mid, env, squares[|squares| - 1]);
    }
  }

  /** A pass changes only the counts of the best names of its active squares. */
  lemma {:induction false} ScanAllChanges(st: ScanState, env: ScanEnv, squares: seq<Square>, t: string)
    requires GetOr(ScanAll(st, env, squares).purchases, t, 0) != GetOr(st.purchases, t, 0)
    ensures exists i :: 0 <= i < |squares| && Active(squares[i]) && BestName(squares[i], env.u) == Some(t)
    decreases |squares|
  {
    var n := |squares| - 1;
    var init := squares[..n];
    var mid := ScanAll(st, env, init);
    assert ScanAll(st, env, squares) == SquareStep(mid, env, squares[n]);
    SquareStepCounts(mid, env, squares[n]);
    if GetOr(mid.purchases, t, 0) != GetOr(st.purchases, t, 0) {
      ScanAllChanges(st, env, init, t);
      var i :| 0 <= i < |init| && Active(init[i]) && BestName(init[i], env.u) == Some(t);
      assert init[i] == squares[i];
    }
  }

  /** The passes of `buy` in turn. */
  function ScanPasses(st: ScanState, env: ScanEnv, passes: seq<Pass>): ScanState
    decreases |passes|
  {
    if |passes| == 0 then st
    else ScanAll(ScanPasses(st, env, passes[..|passes| - 1]), env, passes[|passes| - 1].squares)
  }

  /** The buying state of one `buy` call. */
  class BuySession {
    const targets: seq<string>
    const memory: SkillMemory.SkillMemoryManager
    var desired: map<string, int>
    var purchases: map<string, int>
    var patience: int
    var anyClicked: bool

    constructor (targets: seq<string>, memory: SkillMemory.SkillMemoryManager)
      ensures this.targets == targets && this.memory == memory
      ensures desired == DesiredCounts(targets) && purchases == map t | t in targets :: 0
      ensures patience == 3 && !anyClicked
    {
      this.targets := targets;
      this.memory := memory;
      var d: map<string, int> := map[];
      for i := 0 to |targets|
        invariant d == DesiredCounts(targets[..i])
      {
        assert forall t :: t in targets[..i + 1] <==> t in targets[..i] || t == targets[i];
        d := d[targets[i] := if HasChar(targets[i], '◎') then 2 else 1];
      }
      assert targets[..|targets|] == targets;
      desired := d;
      purchases := map t | t in targets :: 0;
      patience := 3;
      anyClicked := false;
    }

    /** The counts and memory tables the scan changes. */
    function State(): ScanState
      reads this, memory
    {
      ScanState(purchases, memory.seen, memory.bought)
    }

    predicate AllMet()
      reads this
    {
      forall t :: t in targets ==> GetOr(purchases, t, 0) >= GetOr(desired, t, 1)
    }

    /**
     * One square of `_scan_and_click_buys` after matching: record the
     * sighting, then click unless the quota is met or the memory already
     * holds this skill at this grade, recording the purchase.
     */
    method ConsiderSquare(bestName: Option<string>, containsAny: bool, bestScore: real, threshold: real,
                          rawText: string, dateKey: Option<string>, now: real) returns (clicked: bool)
      modifies this, memory
      requires QuotaKept(purchases, desired)
      ensures QuotaKept(purchases, desired) && Grew(old(purchases), purchases)
      ensures clicked == (purchases != old(purchases))
      ensures var canonical := CanonicalSkillName(bestName);
              var grade := SquareGrade(bestName, rawText);
              clicked == (UnderQuota(old(purchases), desired, bestName, containsAny, bestScore, threshold) &&
                          !AlreadyBought(old(memory.bought), canonical, grade)) &&
              memory.seen == (if canonical.Some? then SkillMemory.RecordIn(old(memory.seen), canonical.value, GradeText(grade), dateKey, None, true, 1, now)
                              else old(memory.seen)) &&
              memory.bought == (if clicked && canonical.Some? then SkillMemory.RecordIn(old(memory.bought), canonical.value, GradeText(grade), dateKey, None, true, 1, now)
                                else old(memory.bought))
      ensures clicked ==> purchases == Counted(old(purchases), bestName.value)
      ensures !clicked ==> purchases == old(purchases)
      ensures memory.meta == old(memory.meta)
      ensures desired == old(desired) && patience == old(patience) && anyClicked == old(anyClicked)
    {
      var grade := SquareGrade(bestName, rawText);
      var canonical := CanonicalSkillName(bestName);
      if canonical.Some? {
        memory.Record(SkillMemory.SkillsSeen, canonical.value, GradeText(grade), dateKey, None, true, 1, now);
      }
      clicked := false;
      if bestName.Some? && (containsAny || bestScore >= threshold) {
        var name := bestName.value;
        if GetOr(purchases, name, 0) >= GetOr(desired, name, 1) {
          return;
        }
        if canonical.Some? && grade.Some? && memory.HasIn(SkillMemory.SkillsBought, canonical.value, GradeText(grade)) {
          return;
        }
        CommitBuy(name, canonical, grade, dateKey, now);
        clicked := true;
      }
    }

    /** The click on a square under quota: one more purchase of `name`, recorded as bought under its canonical name. */
    method CommitBuy(name: string, canonical: Option<string>, grade: Option<char>, dateKey: Option<string>, now: real)
      modifies this, memory
      requires QuotaKept(purchases, desired) && GetOr(purchases, name, 0) < GetOr(desired, name, 1)
      ensures purchases == Counted(old(purchases), name)
      ensures QuotaKept(purchases, desired) && Grew(old(purchases), purchases) && purchases != old(purchases)
      ensures memory.bought == (if canonical.Some? then SkillMemory.RecordIn(old(memory.bought), canonical.value, GradeText(grade), dateKey, None, true, 1, now)
                                else old(memory.bought))
      ensures memory.seen == old(memory.seen) && memory.meta == old(memory.meta)
      ensures desired == old(desired) && patience == old(patience) && anyClicked == old(anyClicked)
    {
      BuyKeepsQuota(purchases, desired, name);
      purchases := Counted(purchases, name);
      assert purchases[name] != GetOr(old(purchases), name, 0);
      if canonical.Some? {
        memory.Record(SkillMemory.SkillsBought, canonical.value, GradeText(grade), dateKey, None, true, 1, now);
      }
    }

    /** One square of `_scan_and_click_buys`: inactive buttons are skipped; an active one adds its title to the signature and may be bought. */
    method ScanSquare(sq: Square, threshold: real, u: UnicodeOps, dateKey: Option<string>, now: real)
      returns (clicked: bool, title: Option<SigItem>)
      modifies this, memory
      requires QuotaKept(purchases, desired)
      ensures QuotaKept(purchases, desired) && Grew(old(purchases), purchases)
      ensures clicked == (purchases != old(purchases))
      ensures clicked ==> Active(sq)
      ensures title == (if Active(sq) then TitleSig(sq, u) else None)
      ensures var st' := SquareStep(old(State()), ScanEnv(desired, threshold, u, dateKey, now), sq);
              purchases == st'.purchases && memory.seen == st'.seen && memory.bought == st'.bought
      ensures memory.meta == old(memory.meta)
      ensures desired == old(desired) && patience == old(patience) && anyClicked == old(anyClicked)
    {
      if sq.buyProb.None? || sq.buyProb.value < ActiveProb {
        assert !Active(sq);
        return false, None;
      }
      title := TitleSig(sq, u);
      clicked := ScanActiveSquare(sq, threshold, u, dateKey, now);
    }

    /** An active square: its best weighted match is considered for buying. */
    method ScanActiveSquare(sq: Square, threshold: real, u: UnicodeOps, dateKey: Option<string>, now: real) returns (clicked: bool)
      modifies this, memory
      requires Active(sq) && QuotaKept(purchases, desired)
      ensures QuotaKept(purchases, desired) && Grew(old(purchases), purchases)
      ensures clicked == (purchases != old(purchases))
      ensures var st' := SquareStep(old(State()), ScanEnv(desired, threshold, u, dateKey, now), sq);
              purchases == st'.purchases && memory.seen == st'.seen && memory.bought == st'.bought
      ensures memory.meta == old(memory.meta)
      ensures desired == old(desired) && patience == old(patience) && anyClicked == old(anyClicked)
    {
      var best, bestScore := WeightedBest(sq.matches, u);
      var bestName := if best.Some? then Some(best.value.target) else None;
      ghost var p0 := purchases;
      ghost var st := ScanState(p0, memory.seen, memory.bought);
      ghost var env := ScanEnv(desired, threshold, u, dateKey, now);
      BuysTerms(st, env, sq, bestName, bestScore);
      RecordTerms(st.seen, env, sq, bestName);
      RecordTerms(st.bought, env, sq, bestName);
      clicked := ConsiderSquare(bestName, |sq.matches| > 0, bestScore, threshold, sq.rawText, dateKey, now);
      if clicked {
        assert Buys(st, env, sq);
        StepBuys(st, env, sq, bestName.value);
      } else {
        assert !Buys(st, env, sq);
        StepSkips(st, env, sq);
      }
    }

    /** `_scan_and_click_buys` over the squares of one frame: whether anything was clicked, and the OCR title signature. */
    method ScanPass(squares: seq<Square>, threshold: real, u: UnicodeOps, dateKey: Option<string>, now: real)
      returns (clicked: bool, titles: seq<SigItem>)
      modifies this, memory
      requires QuotaKept(purchases, desired)
      ensures QuotaKept(purchases, desired) && Grew(old(purchases), purchases)
      ensures clicked == (purchases != old(purchases))
      ensures titles == TitleSignature(squares, u)
      ensures State() == ScanAll(old(State()), ScanEnv(desired, threshold, u, dateKey, now), squares)
      ensures memory.meta == old(memory.meta)
      ensures desired == old(desired) && patience == old(patience) && anyClicked == old(anyClicked)
    {
      clicked := false;
      titles := [];
      for i := 0 to |squares|
        invariant QuotaKept(purchases, desired) && Grew(old(purchases), purchases)
        invariant clicked == (purchases != old(purchases))
        invariant titles == TitleSignature(squares[..i], u)
        invariant State() == ScanAll(old(State()), ScanEnv(desired, threshold, u, dateKey, now), squares[..i])
        invariant memory.meta == old(memory.meta)
        invariant desired == old(desired) && patience == old(patience) && anyClicked == old(anyClicked)
      {
        assert squares[..i + 1][..i] == squares[..i];
        ghost var before := purchases;
        var c, title := ScanSquare(squares[i], threshold, u, dateKey, now);
        if title.Some? {
          titles := titles + [title.value];
        }
        GrewTrans(old(purchases), before, purchases);
        if clicked {
          GrewStrict(old(purchases), before, purchases);
        }
        clicked := clicked || c;
      }
      assert squares[..|squares|] == squares;
    }

    /**
     * The end of one pass of `buy`: the early-stop patience and the
     * all-quotas-met exit. A pass that clicked nothing and looks like the
     * previous one costs one unit of patience; any other pass restores it.
     */
    method EndPass(clicked: bool, sameView: bool, earlyStop: bool, hasPrev: bool) returns (stop: bool)
      modifies this
      ensures var same := earlyStop && !clicked && hasPrev && sameView;
              patience == (if same then old(patience) - 1 else 3) &&
              stop == ((same && patience == 0) || AllMet())
      ensures anyClicked == (old(anyClicked) || clicked)
      ensures purchases == old(purchases) && desired == old(desired)
    {
      anyClicked := anyClicked || clicked;
      if earlyStop && !clicked && hasPrev && sameView {
        patience := patience - 1;
        if patience == 0 {
          return true;
        }
      } else {
        patience := 3;
      }
      stop := forall t :: t in targets ==> GetOr(purchases, t, 0) >= GetOr(desired, t, 1);
    }

    /**
     * `buy` for a non-empty target list, over the frames the scroll loop
     * sees (one per pass, at most `max_scrolls`); `confirmed` and
     * `recovered` are the outcomes of the confirm and exit flows.
     */
    method Run(passes: seq<Pass>, earlyStop: bool, threshold: real, u: UnicodeOps, dateKey: Option<string>, now: real,
               confirmed: bool, recovered: bool) returns (result: BuyResult)
      modifies this, memory
      requires QuotaKept(purchases, desired) && patience == 3 && !anyClicked
      ensures QuotaKept(purchases, desired)
      ensures result.clickedAny == anyClicked
      ensures anyClicked ==> result == (if confirmed then BuyResult(Success, true, true) else BuyResult(ExitFailed, true, recovered))
      ensures !anyClicked ==> result == BuyResult(if recovered then NoBuy else ExitFailed, false, recovered) && purchases == old(purchases)
      ensures exists k :: 0 <= k <= |passes| && State() == ScanPasses(old(State()), ScanEnv(desired, threshold, u, dateKey, now), passes[..k])
      ensures memory.meta == old(memory.meta)
    {
      ghost var env := ScanEnv(desired, threshold, u, dateKey, now);
      var prevSig: Option<seq<SigItem>> := None;
      var prevTitles: seq<SigItem> := [];
      for i := 0 to |passes|
        invariant QuotaKept(purchases, desired)
        invariant !anyClicked ==> purchases == old(purchases)
        invariant desired == old(desired) && memory.meta == old(memory.meta)
        invariant State() == ScanPasses(old(State()), env, passes[..i])
      {
        var clicked, titles := ScanPass(passes[i].squares, threshold, u, dateKey, now);
        assert passes[..i + 1][..i] == passes[..i];
        assert State() == ScanPasses(old(State()), env, passes[..i + 1]);
        var same := prevSig.Some? && NearlySame(prevSig.value, passes[i].yoloSig, Some(prevTitles), Some(titles));
        var stop := EndPass(clicked, same, earlyStop, prevSig.Some?);
        if stop {
          break;
        }
        prevSig := Some(passes[i].yoloSig);
        prevTitles := titles;
      }
      if anyClicked {
        if confirmed {
          return BuyResult(Success, true, true);
        }
        return BuyResult(ExitFailed, true, recovered);
      }
      return BuyResult(if recovered then NoBuy else ExitFailed, false, recovered);
    }
  }

  /** `buy` with no targets: a clean no-buy exit without scanning. */
  function BuyNoTargets(): (r: BuyResult)
    ensures r.status == NoBuy && !r.clickedAny && r.exitRecovered
  {
    BuyResult(NoBuy, false, true)
  }
}
