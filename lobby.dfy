/**
 * The lobby's bookkeeping: the filter that accepts or holds OCR reads of
 * the five training stats, the half-step date advance, the raced-today
 * memory and the energy precheck gate.
 */
module Lobby {
  import opened Wrappers
  import opened Sorting

  // ---------------------------------------------------------------------
  // Stat reads
  // ---------------------------------------------------------------------

  datatype Key = SPD | STA | PWR | GUTS | WIT

  /** `KEYS`, in the order the reads are processed. */
  const Keys: seq<Key> := [SPD, STA, PWR, GUTS, WIT]

  const StatMin := 0
  const StatMax := 1200
  const MaxUpStep := 150
  const MaxDownStep := 60
  const PersistFramesUp := 2
  const PersistFramesDown := 2
  const WarmupFrames := 2
  const SuspectFrames := 5
  const HistLen := 5
  const CorrTol := 80

  /** The per-stat filter state: pending up and down candidates, stability, suspect window, raw history. */
  datatype Track = Track(pending: Option<int>, pendingCount: int, pendingDown: Option<int>, pendingDownCount: int,
                         stable: int, suspect: int, prejump: Option<int>, history: seq<int>)

  /** The lazily initialised state of a stat never read. */
  const NewTrack := Track(None, 0, None, 0, 0, 0, None, [])

  /** The outcome of one read: the stat's value, whether it is imputed, its filter state. */
  datatype Reading = Reading(value: int, artificial: bool, track: Track)

  function Abs(x: int): nat { if x < 0 then -x else x }

  /** `max(0, n - 1)`. */
  function Decay(n: int): int { if n - 1 < 0 then 0 else n - 1 }

  /** Appending to a `deque(maxlen=HIST_LEN)`. */
  function Push(h: seq<int>, x: int): (r: seq<int>)
    ensures |r| == if |h| + 1 > HistLen then HistLen else |h| + 1
    ensures r[|r| - 1] == x
  {
    var h2 := h + [x];
    if |h2| > HistLen then h2[|h2| - HistLen..] else h2
  }

  predicate IntLe(a: int, b: int) { a <= b }

  /** `statistics.median` of a non-empty history. */
  function Median(h: seq<int>): real
    requires |h| > 0
  {
    var s := SortBy(h, IntLe);
    var n := |s|;
    if n % 2 == 1 then s[n / 2] as real else (s[n / 2 - 1] + s[n / 2]) as real / 2.0
  }

  function AbsReal(x: real): real { if x < 0.0 then -x else x }

  /** The median test for a persistent large drop: close to the median, or closer to it than the held value. */
  predicate MedianSupports(h: seq<int>, prev: int, v: int)
  {
    |h| > 0 &&
    var med := Median(h);
    AbsReal(v as real - med) <= CorrTol as real || AbsReal(prev as real - med) > AbsReal(v as real - med)
  }

  /** An accepted read clears the pending candidates and the stability count. */
  function Settle(t: Track, suspect: int, prejump: Option<int>): Track
  {
    t.(pending := None, pendingCount := 0, pendingDown := None, pendingDownCount := 0, stable := 0,
       suspect := suspect, prejump := prejump)
  }

  /** One stat's pass through the loop of `_update_stats`: `prev` is the held value, `v` the read. */
  function ReadOne(prev: int, art: bool, t: Track, v: int): Reading
  {
    if v < StatMin || v > StatMax then Reading(prev, art, t)
    else
      var t1 := t.(history := Push(t.history, v));
      if prev == -1 then Reading(v, false, Settle(t1, 0, None))
      else if v < prev then
        if prev - v <= MaxDownStep then Reading(v, false, Settle(t1, Decay(t.suspect), t.prejump))
        else if art then Reading(v, false, Settle(t1, 0, None))
        else if t.suspect > 0 then
          if t.prejump.Some? && Abs(v - t.prejump.value) <= CorrTol then Reading(v, false, Settle(t1, 0, None))
          else Reading(prev, art, t1)
        else
          var t2 := if t.pendingDown == Some(v) then t1.(pendingDownCount := t.pendingDownCount + 1)
                    else t1.(pendingDown := Some(v), pendingDownCount := 1);
          if t2.pendingDownCount >= PersistFramesDown && MedianSupports(t2.history, prev, v)
          then Reading(v, false, Settle(t1, 0, None))
          else Reading(prev, art, t2)
      else if v - prev <= MaxUpStep then Reading(v, false, Settle(t1, Decay(t.suspect), t.prejump))
      else if t.stable < WarmupFrames || art then Reading(v, false, Settle(t1, SuspectFrames, Some(prev)))
      else
        var t2 := if t.pending == Some(v) then t1.(pendingCount := t.pendingCount + 1)
                  else t1.(pending := Some(v), pendingCount := 1);
        if t2.pendingCount >= PersistFramesUp
        then Reading(v, false, t2.(pending := None, pendingCount := 0, stable := 0, suspect := SuspectFrames, prejump := Some(prev)))
        else Reading(prev, art, t2)
  }

  /** A read outside [0, 1200] changes nothing, not even the history. */
  lemma ReadOutOfRange(prev: int, art: bool, t: Track, v: int)
    requires v < StatMin || v > StatMax
    ensures ReadOne(prev, art, t, v) == Reading(prev, art, t)
  {
  }

  /** Every valid read lands in the history, whatever is decided about it. */
  lemma ReadKeepsHistory(prev: int, art: bool, t: Track, v: int)
    requires StatMin <= v <= StatMax
    ensures ReadOne(prev, art, t, v).track.history == Push(t.history, v)
  {
  }

  /** The first valid read of an unknown stat is taken as is and resets the filter. */
  lemma ReadFirst(art: bool, t: Track, v: int)
    requires StatMin <= v <= StatMax
    ensures var r := ReadOne(-1, art, t, v);
            r.value == v && !r.artificial &&
            r.track == Track(None, 0, None, 0, 0, 0, None, Push(t.history, v))
  {
  }

  /** Drops of at most 60 and rises of at most 150 are taken at once. */
  lemma ReadSmallMove(prev: int, art: bool, t: Track, v: int)
    requires StatMin <= v <= StatMax && prev != -1
    requires -MaxDownStep <= v - prev <= MaxUpStep
    ensures ReadOne(prev, art, t, v).value == v && !ReadOne(prev, art, t, v).artificial
  {
  }

  /**
   * A rise above 150 is taken at once only in warm-up or over an imputed
   * value; otherwise only when it repeats the pending candidate.
   */
  lemma ReadBigRise(prev: int, art: bool, t: Track, v: int)
    requires StatMin <= v <= StatMax && prev != -1
    requires v - prev > MaxUpStep
    ensures ReadOne(prev, art, t, v).value == v <==>
            t.stable < WarmupFrames || art || (t.pending == Some(v) && t.pendingCount + 1 >= PersistFramesUp)
    ensures ReadOne(prev, art, t, v).value == v ==> ReadOne(prev, art, t, v).track.suspect == SuspectFrames
  {
  }

  /** Outside warm-up, a large rise seen for the first time is held, and taken when read again. */
  lemma BigRiseNeedsTwoReads(prev: int, t: Track, v: int)
    requires StatMin <= v <= StatMax && prev != -1 && v - prev > MaxUpStep
    requires t.stable >= WarmupFrames && t.pending != Some(v)
    ensures var r1 := ReadOne(prev, false, t, v);
            r1.value == prev && ReadOne(prev, false, r1.track, v).value == v
  {
  }

  /**
   * A drop above 60 is taken only over an imputed value, as a correction
   * back to the value before a recent jump, or when it persists and the
   * median of recent reads supports it.
   */
  lemma ReadBigDrop(prev: int, art: bool, t: Track, v: int)
    requires StatMin <= v <= StatMax && prev != -1
    requires prev - v > MaxDownStep
    ensures var r := ReadOne(prev, art, t, v);
            r.value == v <==>
            art ||
            (t.suspect > 0 && t.prejump.Some? && Abs(v - t.prejump.value) <= CorrTol) ||
            (t.suspect <= 0 && (if t.pendingDown == Some(v) then t.pendingDownCount + 1 else 1) >= PersistFramesDown &&
             MedianSupports(Push(t.history, v), prev, v))
  {
  }

  /** A read leaves the stat unknown only when it was unknown and the read is invalid. */
  lemma ReadKnown(prev: int, art: bool, t: Track, v: int)
    ensures ReadOne(prev, art, t, v).value == -1 ==> prev == -1
  {
  }

  /** The lobby's stat state. */
  datatype StatState = StatState(values: map<Key, int>, artificial: set<Key>, tracks: map<Key, Track>)

  /** `dict.get(k, -1)`. */
  function Get(m: map<Key, int>, k: Key): int
  {
    if k in m then m[k] else -1
  }

  function TrackOf(tracks: map<Key, Track>, k: Key): Track
  {
    if k in tracks then tracks[k] else NewTrack
  }

  /** What the loop body decides for key `k` in state `s`. */
  function ReadOf(s: StatState, observed: map<Key, int>, k: Key): Reading
  {
    ReadOne(Get(s.values, k), k in s.artificial, TrackOf(s.tracks, k), Get(observed, k))
  }

  /** The loop body of `_update_stats` for key `k`. */
  function ReadKey(s: StatState, observed: map<Key, int>, k: Key): StatState
  {
    var r := ReadOf(s, observed, k);
    StatState(s.values[k := r.value],
              if r.artificial then s.artificial + {k} else s.artificial - {k},
              s.tracks[k := r.track])
  }

  /** The reading loop over `ks`. */
  function ReadAll(s: StatState, observed: map<Key, int>, ks: seq<Key>): StatState
  {
    if |ks| == 0 then s else ReadKey(ReadAll(s, observed, ks[..|ks| - 1]), observed, ks[|ks| - 1])
  }

  /** Key `k`'s value, imputed flag and filter state in `s`. */
  function Slot(s: StatState, k: Key): (int, bool, Track)
  {
    (Get(s.values, k), k in s.artificial, TrackOf(s.tracks, k))
  }

  lemma ReadKeyAt(s: StatState, observed: map<Key, int>, j: Key, k: Key)
    ensures var r := ReadOf(s, observed, k);
            Slot(ReadKey(s, observed, j), k) == if k == j then (r.value, r.artificial, r.track) else Slot(s, k)
  {
  }

  lemma SameSlotSameRead(s: StatState, t: StatState, observed: map<Key, int>, k: Key)
    requires Slot(s, k) == Slot(t, k)
    ensures ReadOf(s, observed, k) == ReadOf(t, observed, k)
  {
  }

  /** The reading loop gives each key exactly its own `ReadOne`, and leaves keys outside the loop alone. */
  lemma {:induction false} ReadAllAt(s: StatState, observed: map<Key, int>, ks: seq<Key>, k: Key)
    requires forall i, j :: 0 <= i < j < |ks| ==> ks[i] != ks[j]
    ensures var one := ReadOf(s, observed, k);
            Slot(ReadAll(s, observed, ks), k) == if k in ks then (one.value, one.artificial, one.track) else Slot(s, k)
  {
    if |ks| > 0 {
      var init := ks[..|ks| - 1];
      var last := ks[|ks| - 1];
      var mid := ReadAll(s, observed, init);
      ReadAllAt(s, observed, init, k);
      ReadKeyAt(mid, observed, last, k);
      if k != last {
        assert k in ks <==> k in init;
      } else {
        assert forall i :: 0 <= i < |init| ==> init[i] == ks[i] && ks[i] != last;
        assert k !in init;
        SameSlotSameRead(mid, s, observed, k);
      }
    }
  }

  /** The values of `ks` still unknown. */
  function Missing(values: map<Key, int>, ks: seq<Key>): (r: seq<Key>)
    ensures forall k :: k in r <==> k in ks && Get(values, k) == -1
  {
    if |ks| == 0 then [] else Missing(values, ks[..|ks| - 1]) + (if Get(values, ks[|ks| - 1]) == -1 then [ks[|ks| - 1]] else [])
  }

  /** The known values of `ks`, in order. */
  function Known(values: map<Key, int>, ks: seq<Key>): (r: seq<int>)
    ensures |r| + |Missing(values, ks)| == |ks|
  {
    if |ks| == 0 then [] else Known(values, ks[..|ks| - 1]) + (if Get(values, ks[|ks| - 1]) != -1 then [Get(values, ks[|ks| - 1])] else [])
  }

  function Sum(s: seq<int>): int
  {
    if |s| == 0 then 0 else Sum(s[..|s| - 1]) + s[|s| - 1]
  }

  /** `round(num / den)` with Python's ties-to-even rule, on exact rationals. */
  function RoundHalfEven(num: int, den: int): (q: int)
    requires den > 0
    ensures 2 * (num - q * den) <= den && 2 * (q * den - num) <= den
    ensures 2 * (num - q * den) == den || 2 * (q * den - num) == den ==> q % 2 == 0
  {
    var f := num / den;
    var r := num % den;
    assert num == f * den + r && 0 <= r < den;
    assert (f + 1) * den == f * den + den;
    if 2 * r < den then f
    else if 2 * r > den then f + 1
    else if f % 2 == 0 then f
    else f + 1
  }

  /** `max(STAT_MIN, min(STAT_MAX, x))`. */
  function ClampStat(x: int): (r: int)
    ensures StatMin <= r <= StatMax
    ensures StatMin <= x <= StatMax ==> r == x
  {
    if x > StatMax then StatMax else if x < StatMin then StatMin else x
  }

  /** The imputed value: the rounded average of the known stats, clamped. */
  function Average(known: seq<int>): int
    requires |known| > 0
  {
    ClampStat(RoundHalfEven(Sum(known), |known|))
  }

  /** The imputation loop: each listed key gets `avg` and is marked artificial. */
  function Fill(s: StatState, ks: seq<Key>, avg: int): StatState
  {
    if |ks| == 0 then s
    else
      var r := Fill(s, ks[..|ks| - 1], avg);
      r.(values := r.values[ks[|ks| - 1] := avg], artificial := r.artificial + {ks[|ks| - 1]})
  }

  lemma {:induction false} FillAt(s: StatState, ks: seq<Key>, avg: int, k: Key)
    ensures var r := Fill(s, ks, avg);
            (k in ks ==> Get(r.values, k) == avg && k in r.artificial) &&
            (k !in ks ==> Get(r.values, k) == Get(s.values, k) && (k in r.artificial <==> k in s.artificial)) &&
            r.tracks == s.tracks
  {
    if |ks| > 0 {
      FillAt(s, ks[..|ks| - 1], avg, k);
      assert k in ks <==> k in ks[..|ks| - 1] || k == ks[|ks| - 1];
    }
  }

  /** Imputation: when some stat is known, the unknown ones get the average. */
  function Impute(s: StatState): StatState
  {
    ImputeOver(s, Keys)
  }

  /** Imputation over the stat keys `ks`. */
  function ImputeOver(s: StatState, ks: seq<Key>): StatState
  {
    var missing := Missing(s.values, ks);
    var known := Known(s.values, ks);
    if |missing| > 0 && |known| > 0 then Fill(s, missing, Average(known)) else s
  }

  /** After imputation no stat is unknown, unless none was known; imputed stats hold the average and are artificial. */
  lemma ImputeFills(s: StatState, k: Key)
    requires exists j :: j in Keys && Get(s.values, j) != -1
    ensures var r := Impute(s);
            Get(r.values, k) != -1 &&
            (Get(s.values, k) == -1 ==> Get(r.values, k) == Average(Known(s.values, Keys)) && k in r.artificial) &&
            (Get(s.values, k) != -1 ==> Get(r.values, k) == Get(s.values, k))
  {
    var missing := Missing(s.values, Keys);
    var j :| j in Keys && Get(s.values, j) != -1;
    assert j !in missing;
    assert |missing| < |Keys| by {
      MissingProper(s.values, Keys, j);
    }
    assert k in Keys;
    if |missing| > 0 {
      FillAt(s, missing, Average(Known(s.values, Keys)), k);
    }
  }

  lemma {:induction false} MissingProper(values: map<Key, int>, ks: seq<Key>, j: Key)
    requires j in ks && Get(values, j) != -1
    ensures |Missing(values, ks)| < |ks|
  {
    var init := ks[..|ks| - 1];
    if j == ks[|ks| - 1] {
      MissingAtMost(values, init);
    } else {
      assert j in init;
      MissingProper(values, init, j);
    }
  }

  lemma {:induction false} MissingAtMost(values: map<Key, int>, ks: seq<Key>)
    ensures |Missing(values, ks)| <= |ks|
  {
    if |ks| > 0 {
      MissingAtMost(values, ks[..|ks| - 1]);
    }
  }

  /** One key of the stability loop: an unchanged known stat ages, a changed one shrinks its suspect window. */
  function AgeTrack(t: Track, cur: int, before: int): Track
  {
    if cur != -1 && cur == before then t.(stable := t.stable + 1)
    else if t.suspect > 0 then t.(suspect := Decay(t.suspect))
    else t
  }

  /** The stability loop over `ks`. */
  function Age(s: StatState, before: map<Key, int>, ks: seq<Key>): StatState
  {
    if |ks| == 0 then s
    else
      var r := Age(s, before, ks[..|ks| - 1]);
      var k := ks[|ks| - 1];
      r.(tracks := r.tracks[k := AgeTrack(TrackOf(r.tracks, k), Get(r.values, k), Get(before, k))])
  }

  lemma {:induction false} AgeKeepsValues(s: StatState, before: map<Key, int>, ks: seq<Key>)
    ensures Age(s, before, ks).values == s.values && Age(s, before, ks).artificial == s.artificial
  {
    if |ks| > 0 {
      AgeKeepsValues(s, before, ks[..|ks| - 1]);
    }
  }

  /** The refresh branch of `_update_stats`. */
  function Refresh(s: StatState, observed: map<Key, int>): StatState
  {
    Age(Impute(ReadAll(s, observed, Keys)), s.values, Keys)
  }

  lemma KeysDistinct()
    ensures forall i, j :: 0 <= i < j < |Keys| ==> Keys[i] != Keys[j]
  {
  }

  /**
   * After a refresh, if any stat is known, none is unknown; a stat whose
   * read was accepted holds that read.
   */
  lemma RefreshNoUnknown(s: StatState, observed: map<Key, int>, k: Key)
    requires exists j :: j in Keys && Get(ReadAll(s, observed, Keys).values, j) != -1
    ensures Get(Refresh(s, observed).values, k) != -1
  {
    var r := ReadAll(s, observed, Keys);
    ImputeFills(r, k);
    AgeKeepsValues(Impute(r), s.values, Keys);
  }

  /** A refresh gives each stat the value its own read decided, unless it was imputed. */
  lemma RefreshValue(s: StatState, observed: map<Key, int>, k: Key)
    ensures var one := ReadOne(Get(s.values, k), k in s.artificial, TrackOf(s.tracks, k), Get(observed, k));
            one.value != -1 ==> Get(Refresh(s, observed).values, k) == one.value
  {
    var r := ReadAll(s, observed, Keys);
    KeysDistinct();
    assert k in Keys;
    ReadAllAt(s, observed, Keys, k);
    var one := ReadOf(s, observed, k);
    if one.value != -1 {
      ImputeFills(r, k);
      AgeKeepsValues(Impute(r), s.values, Keys);
    }
  }

  /** The refresh gate: the first call, every `interval`-th call, or any stat unknown. */
  predicate ShouldRefresh(values: map<Key, int>, counter: int, interval: int)
    requires counter == 0 || interval != 0
  {
    counter == 0 || counter % interval == 0 || exists k :: k in Keys && Get(values, k) == -1
  }

  // ---------------------------------------------------------------------
  // Dates
  // ---------------------------------------------------------------------

  /** A career date: year code 0 (pre-debut) to 4 (final season), month, half (1 early, 2 late). */
  datatype DateInfo = DateInfo(raw: string, yearCode: int, month: Option<int>, half: Option<int>)

  /** The half-step advance used when turns drop without a readable date. */
  function HalfStep(d: DateInfo): Option<DateInfo>
  {
    if d.yearCode in {1, 2, 3} && d.month.Some? then
      var y := d.yearCode;
      var m := d.month.value;
      if d.half == Some(1) then Some(DateInfo(d.raw, y, Some(m), Some(2)))
      else if m == 12 then
        if y in {1, 2} then Some(DateInfo(d.raw, y + 1, Some(1), Some(1)))
        else Some(DateInfo(d.raw, 4, None, None))
      else Some(DateInfo(d.raw, y, Some(m + 1), Some(1)))
    else None
  }

  /** The same advance where the date did not change, which also needs a known half. */
  function NoChangeStep(d: DateInfo): Option<DateInfo>
  {
    if d.yearCode in {1, 2, 3} && d.month.Some? && d.half in {Some(1), Some(2)} then HalfStep(d) else None
  }

  /** The four cases of the advance. */
  lemma HalfStepCases(d: DateInfo)
    requires d.yearCode in {1, 2, 3} && d.month.Some? && d.half in {Some(1), Some(2)}
    ensures var y := d.yearCode; var m := d.month.value;
            NoChangeStep(d) == HalfStep(d) &&
            HalfStep(d) == Some(
              if d.half == Some(1) then DateInfo(d.raw, y, Some(m), Some(2))
              else if m != 12 then DateInfo(d.raw, y, Some(m + 1), Some(1))
              else if y != 3 then DateInfo(d.raw, y + 1, Some(1), Some(1))
              else DateInfo(d.raw, 4, None, None))
  {
  }

  /** Position in the career: halves since Early January of year 1; the final season follows the last half. */
  function HalfIndex(d: DateInfo): Option<int>
  {
    if d.yearCode == 4 then Some(72)
    else if d.yearCode in {1, 2, 3} && d.month.Some? && 1 <= d.month.value <= 12 && d.half in {Some(1), Some(2)} then
      Some((d.yearCode - 1) * 24 + (d.month.value - 1) * 2 + (d.half.value - 1))
    else None
  }

  /** Every advance from a regular date moves exactly one half forward. */
  lemma HalfStepAdvancesOne(d: DateInfo)
    requires HalfIndex(d).Some? && d.yearCode != 4
    ensures HalfStep(d).Some? && HalfIndex(HalfStep(d).value) == Some(HalfIndex(d).value + 1)
  {
  }

  /** An unknown half counts as late in the turn-driven advance, but blocks the no-change advance. */
  lemma UnknownHalf(d: DateInfo)
    requires d.yearCode in {1, 2, 3} && d.month.Some? && d.half.None?
    ensures HalfStep(d).Some? && NoChangeStep(d).None?
  {
  }

  /** `_precheck_allowed`; `summerSoon` is `is_summer_in_two_or_less_turns` of the current date, when there is one. */
  predicate PrecheckAllowed(enabled: bool, energy: Option<int>, autoRestMinimum: int, summerSoon: bool)
  {
    enabled && energy.Some? && energy.value > autoRestMinimum && !(summerSoon && energy.value <= 30)
  }

  lemma PrecheckNeedsEnergy(enabled: bool, energy: Option<int>, autoRestMinimum: int, summerSoon: bool)
    ensures PrecheckAllowed(enabled, energy, autoRestMinimum, summerSoon) ==>
            enabled && energy.Some? && energy.value > autoRestMinimum
  {
  }

  // ---------------------------------------------------------------------
  // The flow
  // ---------------------------------------------------------------------

  /** The part of `LobbyFlow` these operations update. */
  class LobbyFlow {
    const interval: int
    var stats: map<Key, int>
    var artificial: set<Key>
    var tracks: map<Key, Track>
    var refreshCounter: int
    var dateInfo: Option<DateInfo>
    var dateStableCount: int
    var dateArtificial: bool
    var lastTurnAtDateUpdate: Option<int>
    var lastDateKey: Option<string>
    var racedKeysRecent: set<string>
    var skipRaceOnce: bool
    var skipGuardKey: Option<string>

    constructor (intervalStatsRefresh: int)
      ensures interval == intervalStatsRefresh && refreshCounter == 0
      ensures stats == map[] && artificial == {} && tracks == map[]
      ensures dateInfo == None && racedKeysRecent == {} && !skipRaceOnce
      ensures skipGuardKey == None && dateStableCount == 0 && !dateArtificial
      ensures lastTurnAtDateUpdate == None && lastDateKey == None
    {
      interval := intervalStatsRefresh;
      stats := map[];
      artificial := {};
      tracks := map[];
      refreshCounter := 0;
      dateInfo := None;
      dateStableCount := 0;
      dateArtificial := false;
      lastTurnAtDateUpdate := None;
      lastDateKey := None;
      racedKeysRecent := {};
      skipRaceOnce := false;
      skipGuardKey := None;
    }

    /** The reading loop. */
    static method ReadStats(s0: StatState, observed: map<Key, int>) returns (s: StatState)
      ensures s == ReadAll(s0, observed, Keys)
    {
      s := s0;
      for i := 0 to |Keys|
        invariant s == ReadAll(s0, observed, Keys[..i])
      {
        assert Keys[..i + 1][..i] == Keys[..i];
        var key := Keys[i];
        var prev := Get(s.values, key);
        var wasArtificial := key in s.artificial;
        var r := ReadOne(prev, wasArtificial, TrackOf(s.tracks, key), Get(observed, key));
        s := StatState(s.values[key := r.value],
                       if r.artificial then s.artificial + {key} else s.artificial - {key},
                       s.tracks[key := r.track]);
      }
      assert Keys[..|Keys|] == Keys;
    }

    /** The imputation step. */
    static method ImputeStats(s0: StatState) returns (s: StatState)
      ensures s == Impute(s0)
    {
      s := ImputeFor(s0, Keys);
    }

    static method ImputeFor(s0: StatState, ks: seq<Key>) returns (s: StatState)
      ensures s == ImputeOver(s0, ks)
    {
      s := s0;
      var missing := Missing(s0.values, ks);
      var known := Known(s0.values, ks);
      if |missing| > 0 && |known| > 0 {
        var avg := Average(known);
        for j := 0 to |missing|
          invariant s == Fill(s0, missing[..j], avg)
        {
          assert missing[..j + 1][..j] == missing[..j];
          s := s.(values := s.values[missing[j] := avg], artificial := s.artificial + {missing[j]});
        }
        assert missing[..|missing|] == missing;
      }
    }

    /** The stability loop. */
    static method AgeStats(s0: StatState, before: map<Key, int>) returns (s: StatState)
      ensures s == Age(s0, before, Keys)
    {
      s := s0;
      for i := 0 to |Keys|
        invariant s == Age(s0, before, Keys[..i])
      {
        assert Keys[..i + 1][..i] == Keys[..i];
        var k := Keys[i];
        s := s.(tracks := s.tracks[k := AgeTrack(TrackOf(s.tracks, k), Get(s.values, k), Get(before, k))]);
      }
      assert Keys[..|Keys|] == Keys;
    }

    /** The refresh branch: read, impute, age. */
    static method RefreshStats(s0: StatState, observed: map<Key, int>) returns (s: StatState)
      ensures s == Refresh(s0, observed)
    {
      s := ReadStats(s0, observed);
      s := ImputeStats(s);
      s := AgeStats(s, s0.values);
    }

    /** `_update_stats`, with the OCR result `observed` given. */
    method UpdateStats(observed: map<Key, int>)
      requires refreshCounter == 0 || interval != 0
      modifies this
      ensures ShouldRefresh(old(stats), old(refreshCounter), interval) ==>
              StatState(stats, artificial, tracks) == Refresh(StatState(old(stats), old(artificial), old(tracks)), observed)
      ensures !ShouldRefresh(old(stats), old(refreshCounter), interval) ==>
              stats == old(stats) && artificial == old(artificial) && tracks == old(tracks)
      ensures refreshCounter == old(refreshCounter) + 1
      ensures dateInfo == old(dateInfo) && dateStableCount == old(dateStableCount) && dateArtificial == old(dateArtificial)
      ensures lastTurnAtDateUpdate == old(lastTurnAtDateUpdate) && lastDateKey == old(lastDateKey)
      ensures racedKeysRecent == old(racedKeysRecent) && skipRaceOnce == old(skipRaceOnce) && skipGuardKey == old(skipGuardKey)
    {
      var doRefresh := ShouldRefresh(stats, refreshCounter, interval);
      if doRefresh {
        var s := RefreshStats(StatState(stats, artificial, tracks), observed);
        SetStats(s);
      }
      refreshCounter := refreshCounter + 1;
    }

    /** Stores a refreshed stat state; nothing else changes. */
    method SetStats(s: StatState)
      modifies this
      ensures StatState(stats, artificial, tracks) == s
      ensures refreshCounter == old(refreshCounter)
      ensures dateInfo == old(dateInfo) && dateStableCount == old(dateStableCount) && dateArtificial == old(dateArtificial)
      ensures lastTurnAtDateUpdate == old(lastTurnAtDateUpdate) && lastDateKey == old(lastDateKey)
      ensures racedKeysRecent == old(racedKeysRecent) && skipRaceOnce == old(skipRaceOnce) && skipGuardKey == old(skipGuardKey)
    {
      stats, artificial, tracks := s.values, s.artificial, s.tracks;
    }

    /**
     * The turn-driven branch of `_process_date_info` when the date cannot be
     * read: `turn` is the parsed turn counter, `keyOf` renders a date as its key.
     */
    method AdvanceByTurns(turn: Option<int>, keyOf: DateInfo -> string)
      modifies this
      ensures var currTurn := if turn.Some? then turn.value else -1;
              var fires := old(dateInfo).Some? && old(dateInfo).value.yearCode in {1, 2, 3} &&
                           old(lastTurnAtDateUpdate).Some? && currTurn >= 0 && currTurn < old(lastTurnAtDateUpdate).value &&
                           HalfStep(old(dateInfo).value).Some?;
              if fires then
                var adv := HalfStep(old(dateInfo).value).value;
                dateInfo == Some(adv) && dateStableCount == 0 && dateArtificial &&
                lastTurnAtDateUpdate == Some(currTurn) &&
                (Some(keyOf(adv)) != old(lastDateKey) ==> racedKeysRecent == {} && lastDateKey == Some(keyOf(adv))) &&
                (Some(keyOf(adv)) == old(lastDateKey) ==> racedKeysRecent == old(racedKeysRecent) && lastDateKey == old(lastDateKey))
              else
                dateInfo == old(dateInfo) && dateStableCount == old(dateStableCount) && dateArtificial == old(dateArtificial) &&
                lastTurnAtDateUpdate == old(lastTurnAtDateUpdate) && racedKeysRecent == old(racedKeysRecent) &&
                lastDateKey == old(lastDateKey)
      ensures stats == old(stats) && artificial == old(artificial) && tracks == old(tracks) && refreshCounter == old(refreshCounter)
      ensures skipRaceOnce == old(skipRaceOnce) && skipGuardKey == old(skipGuardKey)
    {
      if dateInfo.Some? && dateInfo.value.yearCode in {1, 2, 3} {
        var currTurn := if turn.Some? then turn.value else -1;
        var lt := lastTurnAtDateUpdate;
        if lt.Some? && currTurn >= 0 && currTurn < lt.value {
          var advanced := HalfStep(dateInfo.value);
          if advanced.Some? {
            dateInfo := advanced;
            dateStableCount := 0;
            dateArtificial := true;
            lastTurnAtDateUpdate := Some(currTurn);
            var newKey := keyOf(advanced.value);
            if Some(newKey) != lastDateKey {
              racedKeysRecent := {};
              lastDateKey := Some(newKey);
            }
          }
        }
      }
    }

    /** `mark_raced_today`: an empty key is ignored; otherwise it is remembered and the next race is skipped once. */
    method MarkRacedToday(dateKey: Option<string>)
      modifies this
      ensures dateKey.None? || dateKey.value == "" ==>
              racedKeysRecent == old(racedKeysRecent) && skipRaceOnce == old(skipRaceOnce) && skipGuardKey == old(skipGuardKey)
      ensures dateKey.Some? && dateKey.value != "" ==>
              racedKeysRecent == old(racedKeysRecent) + {dateKey.value} && skipRaceOnce && skipGuardKey == dateKey
      ensures stats == old(stats) && artificial == old(artificial) && tracks == old(tracks) && refreshCounter == old(refreshCounter)
      ensures dateInfo == old(dateInfo) && dateStableCount == old(dateStableCount) && dateArtificial == old(dateArtificial)
      ensures lastTurnAtDateUpdate == old(lastTurnAtDateUpdate) && lastDateKey == old(lastDateKey)
    {
      if dateKey.None? || dateKey.value == "" {
        return;
      }
      racedKeysRecent := racedKeysRecent + {dateKey.value};
      skipRaceOnce := true;
      skipGuardKey := dateKey;
    }
  }
}
