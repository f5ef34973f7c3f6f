/**
 * Event catalogue records and retrieval (core/utils/event_processor.py):
 * title normalisation, pHash similarity, the record built from the events
 * dataset, candidate scoring and `retrieve_best`.
 *
 * Text similarities (rapidfuzz) and image similarities (OpenCV template
 * matching) are opaque scorers passed in as functions; only their range is
 * constrained (to [0, 1]).
 */
module EventCatalog {
  import opened Wrappers
  import opened Strings
  import opened JsonValues
  import opened Sorting
  import Dicts

  // ---------------------------------------------------------------------
  // normalize_text
  // ---------------------------------------------------------------------

  /** The fixed punctuation table of `normalize_text`; other characters map to themselves. */
  function PunctuationReplacement(c: char): string
  {
    match c
    case '≫' => ">>"
    case '«' => "<<"
    case '»' => ">>"
    case '♪' => " note "
    case '☆' => "*"
    case '★' => "*"
    case '\U{3000}' => " "
    case '–' => "-"
    case '—' => "-"
    case '―' => "-"
    case '…' => "..."
    case _ => [c]
  }

  predicate IsReplacedPunctuation(c: char)
  {
    c in {'≫', '«', '»', '♪', '☆', '★', '\U{3000}', '–', '—', '―', '…'}
  }

  /**
   * The table applied character by character. Each key is one character and
   * no replacement text contains a key, so this equals applying the
   * `str.replace` calls one after another.
   */
  function ReplacePunctuation(s: string): (r: string)
    ensures forall c :: c in r ==> !IsReplacedPunctuation(c)
    ensures (forall c :: c in s ==> !IsUpperAscii(c)) ==> (forall c :: c in r ==> !IsUpperAscii(c))
    decreases |s|
  {
    if s == [] then [] else PunctuationReplacement(s[0]) + ReplacePunctuation(s[1..])
  }

  /** The text with every ASCII space removed, the other characters kept in order. */
  function Despaced(s: string): string
    decreases |s|
  {
    if s == [] then [] else (if s[0] == ' ' then [] else [s[0]]) + Despaced(s[1..])
  }

  /**
   * Repeated `replace("  ", " ")` until no double space is left: each run of
   * spaces becomes one. Only spaces are dropped, so the other characters
   * survive in order; the first and last characters are kept, and a text
   * without a double space is returned unchanged.
   */
  function CollapseSpaces(s: string): (r: string)
    ensures |r| <= |s|
    ensures |s| > 0 ==> |r| > 0 && r[0] == s[0] && r[|r| - 1] == s[|s| - 1]
    ensures !Contains(r, "  ")
    ensures Despaced(r) == Despaced(s)
    ensures !Contains(s, "  ") ==> r == s
    ensures forall c :: c in r ==> c in s
    decreases |s|
  {
    if |s| < 2 then
      assert !Contains(s, "  ") by {
        if |s| == 1 { assert !StartsWith(s[1..], "  "); }
      }
      s
    else if s[0] == ' ' && s[1] == ' ' then
      assert StartsWith(s, "  ") by { assert s[..2] == "  "; }
      CollapseSpaces(s[1..])
    else
      var rest := CollapseSpaces(s[1..]);
      var r := [s[0]] + rest;
      assert r[1..] == rest;
      assert r[1] == s[1];
      assert |r| >= 2 && r[..2] == [s[0], s[1]];
      r
  }

  lemma LowerHasNoUpper(s: string)
    ensures forall c :: c in Lower(s) ==> !IsUpperAscii(c)
  {
    forall c | c in Lower(s) ensures !IsUpperAscii(c) {
      var i :| 0 <= i < |s| && Lower(s)[i] == c;
    }
  }

  /**
   * `normalize_text`: strip, lower-case, unify punctuation, collapse double
   * spaces. Apart from spaces, the result is exactly the stripped,
   * lower-cased, punctuation-replaced text, in order.
   */
  function NormalizeText(s: string): (r: string)
    ensures s == "" ==> r == ""
    ensures !Contains(r, "  ")
    ensures forall c :: c in r ==> !IsUpperAscii(c) && !IsReplacedPunctuation(c)
    ensures Despaced(r) == Despaced(ReplacePunctuation(Lower(Strip(s))))
  {
    if s == "" then ""
    else
      LowerHasNoUpper(Strip(s));
      CollapseSpaces(ReplacePunctuation(Lower(Strip(s))))
  }

  /** Text without any table key passes through the punctuation table unchanged. */
  lemma {:induction false} ReplacePunctuationFixed(s: string)
    requires forall c :: c in s ==> !IsReplacedPunctuation(c)
    ensures ReplacePunctuation(s) == s
    decreases |s|
  {
    if s != [] {
      assert s[0] in s;
      assert PunctuationReplacement(s[0]) == [s[0]];
      assert forall c :: c in s[1..] ==> c in s;
      ReplacePunctuationFixed(s[1..]);
      assert s == [s[0]] + s[1..];
    }
  }

  /** A text already in normal form (no edge space, capital, table key or double space) is its own normal form. */
  lemma NormalizeTextFixed(s: string)
    requires NoEdgeSpace(s) && !Contains(s, "  ")
    requires forall c :: c in s ==> !IsUpperAscii(c) && !IsReplacedPunctuation(c)
    ensures NormalizeText(s) == s
  {
    if s != "" {
      StripNoEdge(s);
      assert Lower(s) == s by {
        forall i | 0 <= i < |s| ensures Lower(s)[i] == s[i] {
          assert s[i] in s;
        }
      }
      ReplacePunctuationFixed(s);
    }
  }

  /** Normalising twice is normalising once, whenever the first result has no edge space. */
  lemma NormalizeTextIdempotent(s: string)
    requires NoEdgeSpace(NormalizeText(s))
    ensures NormalizeText(NormalizeText(s)) == NormalizeText(s)
  {
    NormalizeTextFixed(NormalizeText(s));
  }

  // ---------------------------------------------------------------------
  // hamming_similarity64
  // ---------------------------------------------------------------------

  function Pow2(k: nat): (r: nat)
    ensures r >= 1
  {
    if k == 0 then 1 else 2 * Pow2(k - 1)
  }

  /** Bitwise exclusive or of two non-negative integers. */
  function Xor(a: nat, b: nat): nat
    decreases a + b
  {
    if a == 0 then b
    else if b == 0 then a
    else 2 * Xor(a / 2, b / 2) + (if a % 2 != b % 2 then 1 else 0)
  }

  /** `int.bit_count()`. */
  function PopCount(n: nat): nat
  {
    if n == 0 then 0 else n % 2 + PopCount(n / 2)
  }

  lemma {:induction false} XorBelow(a: nat, b: nat, k: nat)
    requires a < Pow2(k) && b < Pow2(k)
    ensures Xor(a, b) < Pow2(k)
    decreases a + b
  {
    if a != 0 && b != 0 {
      assert k > 0;
      XorBelow(a / 2, b / 2, k - 1);
    }
  }

  lemma {:induction false} PopCountBelow(n: nat, k: nat)
    requires n < Pow2(k)
    ensures PopCount(n) <= k
    decreases n
  {
    if n != 0 {
      assert k > 0;
      PopCountBelow(n / 2, k - 1);
    }
  }

  lemma {:induction false} XorSelf(a: nat)
    ensures Xor(a, a) == 0
    decreases a
  {
    if a != 0 {
      XorSelf(a / 2);
    }
  }

  lemma HammingFacts(a: nat, b: nat)
    ensures a == b ==> PopCount(Xor(a, b)) == 0
    ensures a < Pow2(64) && b < Pow2(64) ==> PopCount(Xor(a, b)) <= 64
  {
    if a == b { XorSelf(a); }
    if a < Pow2(64) && b < Pow2(64) {
      XorBelow(a, b, 64);
      PopCountBelow(Xor(a, b), 64);
    }
  }

  predicate IsHash64(h: Option<nat>)
  {
    h.Some? ==> h.value < Pow2(64)
  }

  /** `hamming_similarity64`: one minus the fraction of differing bits among 64. */
  function HammingSimilarity64(a: Option<nat>, b: Option<nat>): (r: real)
    ensures a.None? || b.None? ==> r == 0.0
    ensures IsHash64(a) && IsHash64(b) ==> 0.0 <= r <= 1.0
    ensures a.Some? && a == b ==> r == 1.0
  {
    if a.None? || b.None? then 0.0
    else
      HammingFacts(a.value, b.value);
      1.0 - PopCount(Xor(a.value, b.value)) as real / 64.0
  }

  // ---------------------------------------------------------------------
  // EventRecord
  // ---------------------------------------------------------------------

  datatype EventRecord = EventRecord(
    key: string,
    keyStep: string,
    typ: string,
    name: string,
    rarity: string,
    attribute: string,
    eventName: string,
    chainStep: Option<int>,
    defaultPreference: Option<int>,
    options: seq<(string, seq<Json>)>,
    titleNorm: string,
    phash64: Option<nat>)

  /** `rec.chain_step or 1`. */
  function StepOr1(chainStep: Option<int>): int
  {
    if chainStep.Some? && chainStep.value != 0 then chainStep.value else 1
  }

  /** The step text of `key_step`: the chain step, or 1 when it is missing. */
  function StepText(chainStep: Option<int>): string
  {
    IntToString(if chainStep.Some? then chainStep.value else 1)
  }

  /**
   * `EventRecord.from_json_item`. A missing or empty rarity and a missing
   * attribute read as "None"; the record's image comes from the per-entity
   * hash table passed as `phash`.
   */
  function FromJsonItem(
    evType: string, name: string, rarity: Option<string>, attribute: Option<string>,
    evName: string, chainStep: Option<int>, defaultPref: Option<int>,
    options: seq<(string, seq<Json>)>, phash: Option<nat>): (r: EventRecord)
    ensures r.keyStep == r.key + "#s" + StepText(chainStep)
    ensures r.rarity == (if rarity.None? || rarity.value == "" then "None" else rarity.value)
    ensures r.attribute == (if attribute.None? then "None" else attribute.value)
    ensures r.titleNorm == NormalizeText(evName)
    ensures r.typ == evType && r.name == name && r.eventName == evName
    ensures r.chainStep == chainStep && r.defaultPreference == defaultPref && r.options == options
  {
    var rar := if rarity.None? || rarity.value == "" then "None" else rarity.value;
    var attr := if attribute.None? then "None" else attribute.value;
    var key := Join("/", [evType, name, attr, rar, evName]);
    EventRecord(key, key + "#s" + StepText(chainStep), evType, name, rar, attr, evName,
                chainStep, defaultPref, options, NormalizeText(evName), phash)
  }

  /** The key splits back into its five fields when none of them contains '/'. */
  lemma KeyFieldsRoundTrip(evType: string, name: string, rarity: Option<string>, attribute: Option<string>,
                           evName: string, chainStep: Option<int>, defaultPref: Option<int>,
                           options: seq<(string, seq<Json>)>, phash: Option<nat>)
    requires var r := FromJsonItem(evType, name, rarity, attribute, evName, chainStep, defaultPref, options, phash);
             forall p :: p in [evType, name, r.attribute, r.rarity, evName] ==> !HasChar(p, '/')
    ensures var r := FromJsonItem(evType, name, rarity, attribute, evName, chainStep, defaultPref, options, phash);
            Split(r.key, '/') == [evType, name, r.attribute, r.rarity, evName]
  {
    var r := FromJsonItem(evType, name, rarity, attribute, evName, chainStep, defaultPref, options, phash);
    SplitJoin([evType, name, r.attribute, r.rarity, evName], '/');
  }

  /** One event of the dataset, before it becomes a record. */
  datatype EventItem = EventItem(name: string, chainStep: Option<int>, defaultPref: Option<int>,
                                 options: seq<(string, seq<Json>)>)

  /** One entity of the dataset (a support card, trainee or scenario) and its events. */
  datatype EventParent = EventParent(typ: string, name: string, rarity: Option<string>,
                                     attribute: Option<string>, events: seq<EventItem>)

  /** The record `from_json_item` builds for one event of a parent. */
  function ItemRecord(p: EventParent, ev: EventItem, phash: Option<nat>): EventRecord
  {
    FromJsonItem(p.typ, p.name, p.rarity, p.attribute, ev.name, ev.chainStep, ev.defaultPref, ev.options, phash)
  }

  /** The records `mk` builds for the events with more than one option, in event order. */
  function MultiOptionRecords(evs: seq<EventItem>, mk: EventItem -> EventRecord): seq<EventRecord>
    decreases |evs|
  {
    if evs == [] then []
    else (if |evs[0].options| <= 1 then [] else [mk(evs[0])]) + MultiOptionRecords(evs[1..], mk)
  }

  /** Every multi-option event yields its record, and every record is such an event's. */
  lemma {:induction false} MultiOptionComplete(evs: seq<EventItem>, mk: EventItem -> EventRecord)
    ensures forall i :: 0 <= i < |evs| && |evs[i].options| > 1 ==> mk(evs[i]) in MultiOptionRecords(evs, mk)
    ensures forall r :: r in MultiOptionRecords(evs, mk) ==> exists i :: 0 <= i < |evs| && |evs[i].options| > 1 && r == mk(evs[i])
    decreases |evs|
  {
    if evs != [] {
      MultiOptionComplete(evs[1..], mk);
      assert forall i :: 1 <= i < |evs| ==> evs[i] == evs[1..][i - 1];
    }
  }

  /** Records keep the events' order: the records of `a + b` are those of `a`, then those of `b`. */
  lemma {:induction false} MultiOptionAppend(a: seq<EventItem>, b: seq<EventItem>, mk: EventItem -> EventRecord)
    ensures MultiOptionRecords(a + b, mk) == MultiOptionRecords(a, mk) + MultiOptionRecords(b, mk)
    decreases |a|
  {
    if a != [] {
      var head := if |a[0].options| <= 1 then [] else [mk(a[0])];
      assert (a + b)[0] == a[0] && (a + b)[1..] == a[1..] + b;
      assert MultiOptionRecords(a + b, mk) == head + MultiOptionRecords(a[1..] + b, mk);
      MultiOptionAppend(a[1..], b, mk);
    } else {
      assert a + b == b;
    }
  }

  /** The records of one parent's events. */
  function RecordsOf(p: EventParent, evs: seq<EventItem>, phash: Option<nat>): (rs: seq<EventRecord>)
    ensures forall k :: 0 <= k < |rs| ==> |rs[k].options| > 1
  {
    var mk := ev => ItemRecord(p, ev, phash);
    MultiOptionComplete(evs, mk);
    var rs := MultiOptionRecords(evs, mk);
    assert forall k :: 0 <= k < |rs| ==> rs[k] in rs;
    rs
  }

  /**
   * The record list of `build_catalog`: every event with more than one option,
   * in dataset order; `phashOf` is the per-entity hash the build step computed.
   */
  function BuildCatalog(parents: seq<EventParent>, phashOf: EventParent -> Option<nat>): (rs: seq<EventRecord>)
    ensures forall k :: 0 <= k < |rs| ==> |rs[k].options| > 1
    decreases |parents|
  {
    if parents == [] then []
    else RecordsOf(parents[0], parents[0].events, phashOf(parents[0])) + BuildCatalog(parents[1..], phashOf)
  }

  /** Every multi-option event of every parent is in the catalog, and nothing else is. */
  lemma BuildCatalogComplete(parents: seq<EventParent>, phashOf: EventParent -> Option<nat>)
    ensures forall j, i :: 0 <= j < |parents| && 0 <= i < |parents[j].events| && |parents[j].events[i].options| > 1 ==>
              ItemRecord(parents[j], parents[j].events[i], phashOf(parents[j])) in BuildCatalog(parents, phashOf)
    ensures forall r :: r in BuildCatalog(parents, phashOf) ==>
              exists j, i :: 0 <= j < |parents| && 0 <= i < |parents[j].events| && |parents[j].events[i].options| > 1 &&
                             r == ItemRecord(parents[j], parents[j].events[i], phashOf(parents[j]))
  {
    BuildCatalogCovers(parents, phashOf);
    BuildCatalogOnly(parents, phashOf);
  }

  lemma {:induction false} BuildCatalogCovers(parents: seq<EventParent>, phashOf: EventParent -> Option<nat>)
    ensures forall j, i :: 0 <= j < |parents| && 0 <= i < |parents[j].events| && |parents[j].events[i].options| > 1 ==>
              ItemRecord(parents[j], parents[j].events[i], phashOf(parents[j])) in BuildCatalog(parents, phashOf)
    decreases |parents|
  {
    if parents != [] {
      BuildCatalogCovers(parents[1..], phashOf);
      MultiOptionComplete(parents[0].events, ev => ItemRecord(parents[0], ev, phashOf(parents[0])));
      assert forall j :: 1 <= j < |parents| ==> parents[j] == parents[1..][j - 1];
    }
  }

  lemma {:induction false} BuildCatalogOnly(parents: seq<EventParent>, phashOf: EventParent -> Option<nat>)
    ensures forall r :: r in BuildCatalog(parents, phashOf) ==>
              exists j, i :: 0 <= j < |parents| && 0 <= i < |parents[j].events| && |parents[j].events[i].options| > 1 &&
                             r == ItemRecord(parents[j], parents[j].events[i], phashOf(parents[j]))
    decreases |parents|
  {
    if parents != [] {
      BuildCatalogOnly(parents[1..], phashOf);
      MultiOptionComplete(parents[0].events, ev => ItemRecord(parents[0], ev, phashOf(parents[0])));
      forall r | r in BuildCatalog(parents, phashOf)
        ensures exists j, i :: 0 <= j < |parents| && 0 <= i < |parents[j].events| && |parents[j].events[i].options| > 1 &&
                               r == ItemRecord(parents[j], parents[j].events[i], phashOf(parents[j]))
      {
        var head := RecordsOf(parents[0], parents[0].events, phashOf(parents[0]));
        if r in head {
          var mk := ev => ItemRecord(parents[0], ev, phashOf(parents[0]));
          var i :| 0 <= i < |parents[0].events| && |parents[0].events[i].options| > 1 && r == mk(parents[0].events[i]);
          assert r == ItemRecord(parents[0], parents[0].events[i], phashOf(parents[0]));
        } else {
          assert r in BuildCatalog(parents[1..], phashOf);
          var j, i :| 0 <= j < |parents[1..]| && 0 <= i < |parents[1..][j].events| &&
                      |parents[1..][j].events[i].options| > 1 &&
                      r == ItemRecord(parents[1..][j], parents[1..][j].events[i], phashOf(parents[1..][j]));
          assert parents[1..][j] == parents[j + 1];
        }
      }
    }
  }

  /** The catalog keeps the dataset's order: the catalog of `a + b` is that of `a`, then that of `b`. */
  lemma {:induction false} BuildCatalogAppend(a: seq<EventParent>, b: seq<EventParent>, phashOf: EventParent -> Option<nat>)
    ensures BuildCatalog(a + b, phashOf) == BuildCatalog(a, phashOf) + BuildCatalog(b, phashOf)
    decreases |a|
  {
    if a != [] {
      BuildCatalogCons(a, b, phashOf);
      BuildCatalogAppend(a[1..], b, phashOf);
      ConcatAssoc(RecordsOf(a[0], a[0].events, phashOf(a[0])), BuildCatalog(a[1..], phashOf), BuildCatalog(b, phashOf));
    } else {
      assert a + b == b;
    }
  }

  /** One unfolding of the catalog of `a + b` at the head of `a`. */
  lemma BuildCatalogCons(a: seq<EventParent>, b: seq<EventParent>, phashOf: EventParent -> Option<nat>)
    requires a != []
    ensures BuildCatalog(a + b, phashOf) == RecordsOf(a[0], a[0].events, phashOf(a[0])) + BuildCatalog(a[1..] + b, phashOf)
  {
    assert (a + b)[0] == a[0] && (a + b)[1..] == a[1..] + b;
  }

  // ---------------------------------------------------------------------
  // Scoring
  // ---------------------------------------------------------------------

  /** The similarity oracles: rapidfuzz ratios (scaled to [0,1]) and the portrait matcher. */
  datatype Matchers = Matchers(
    tokenSet: (string, string) -> real,
    ratio: (string, string) -> real,
    partial: (string, string) -> real,
    cv: EventRecord -> real)

  ghost predicate UnitScorers(m: Matchers)
  {
    (forall a, b :: 0.0 <= m.tokenSet(a, b) <= 1.0) &&
    (forall a, b :: 0.0 <= m.ratio(a, b) <= 1.0) &&
    (forall a, b :: 0.0 <= m.partial(a, b) <= 1.0) &&
    (forall r :: 0.0 <= m.cv(r) <= 1.0)
  }

  datatype Query = Query(
    ocrTitle: string,
    typeHint: Option<string>,
    nameHint: Option<string>,
    rarityHint: Option<string>,
    attributeHint: Option<string>,
    chainStepHint: Option<int>,
    hasPortraitImage: bool,
    portraitPhash: Option<nat>,
    imagePhash: Option<nat>,
    pathPhash: Option<nat>,
    preferredTraineeName: Option<string>)

  /** A hint that Python's `if q.x_hint:` accepts. */
  predicate Given(h: Option<string>)
  {
    h.Some? && h.value != ""
  }

  /** Portrait hash priority: explicit hash, then the in-memory image, then the file. */
  function PortraitPhash(q: Query): (h: Option<nat>)
    ensures q.portraitPhash.Some? ==> h == q.portraitPhash
    ensures q.portraitPhash.None? && q.hasPortraitImage ==> h == q.imagePhash
  {
    if q.portraitPhash.Some? then q.portraitPhash
    else if q.hasPortraitImage then q.imagePhash
    else q.pathPhash
  }

  /** Title similarity: 0.5 token-set + 0.3 ratio + 0.2 partial, exactly 1 on an identical title. */
  function TitleSimilarity(qt: string, rec: EventRecord, m: Matchers): (r: real)
    ensures qt == rec.titleNorm ==> r == 1.0
    ensures UnitScorers(m) ==> 0.0 <= r <= 1.0
  {
    if qt == rec.titleNorm then 1.0
    else 0.5 * m.tokenSet(qt, rec.titleNorm) + 0.3 * m.ratio(qt, rec.titleNorm) + 0.2 * m.partial(qt, rec.titleNorm)
  }

  datatype MatchResult = MatchResult(rec: EventRecord, score: real, textSim: real, imgSim: real, hintBonus: real)

  function Bonus(b: bool, w: real): real
  {
    if b then w else 0.0
  }

  /** The soft-constraint bonus of `score_candidate`. */
  function HintBonus(q: Query, rec: EventRecord): (b: real)
    ensures 0.0 <= b <= 0.48
  {
    Bonus(Given(q.typeHint) && q.typeHint.value == rec.typ, 0.04)
    + Bonus(Given(q.nameHint) && NormalizeText(q.nameHint.value) == NormalizeText(rec.name), 0.08)
    + Bonus(Given(q.rarityHint) && NormalizeText(q.rarityHint.value) == NormalizeText(rec.rarity), 0.12)
    + Bonus(Given(q.attributeHint) && NormalizeText(q.attributeHint.value) == NormalizeText(rec.attribute), 0.12)
    + Bonus(q.chainStepHint.Some? && StepOr1(rec.chainStep) == q.chainStepHint.value, 0.12)
  }

  /**
   * `score_candidate`: 0.82 text + 0.11 image + hint bonus. The image term
   * blends the portrait matcher (0.9) with pHash (0.1) when a matcher score
   * exists, and is pHash alone otherwise. A zero portrait hash counts as absent.
   */
  function ScoreCandidate(q: Query, rec: EventRecord, phash: Option<nat>, cvOverride: Option<real>,
                          cvAllowed: Option<set<string>>, m: Matchers): (r: MatchResult)
    ensures r.rec == rec
    ensures r.score == 0.82 * r.textSim + 0.11 * r.imgSim + r.hintBonus
    ensures r.hintBonus == HintBonus(q, rec)
    ensures NormalizeText(q.ocrTitle) == "" ==> r.textSim == 0.0
    ensures NormalizeText(q.ocrTitle) != "" && NormalizeText(q.ocrTitle) == rec.titleNorm ==> r.textSim == 1.0
    ensures UnitScorers(m) ==> 0.0 <= r.textSim <= 1.0
    ensures UnitScorers(m) && IsHash64(phash) && IsHash64(rec.phash64) &&
            (cvOverride.Some? ==> 0.0 <= cvOverride.value <= 1.0) ==>
              0.0 <= r.imgSim <= 1.0 && 0.0 <= r.score <= 1.41
  {
    var qt := NormalizeText(q.ocrTitle);
    var textSim := if qt != "" then TitleSimilarity(qt, rec, m) else 0.0;
    var phSim := if phash.Some? && phash.value != 0 then HammingSimilarity64(phash, rec.phash64) else 0.0;
    var cvSim :=
      if cvOverride.Some? then cvOverride
      else if q.hasPortraitImage && (cvAllowed.None? || rec.key in cvAllowed.value) then Some(m.cv(rec))
      else None;
    var imgSim := if cvSim.Some? then 0.9 * cvSim.value + 0.1 * phSim else phSim;
    var bonus := HintBonus(q, rec);
    MatchResult(rec, 0.82 * textSim + 0.11 * imgSim + bonus, textSim, imgSim, bonus)
  }

  // ---------------------------------------------------------------------
  // Candidate pool
  // ---------------------------------------------------------------------

  /** Replaces the pool by the matching sub-list only when the filter is active and keeps something. */
  function Narrow(pool: seq<EventRecord>, active: bool, keep: EventRecord -> bool): (r: seq<EventRecord>)
    ensures r == pool || (r == Filter(pool, keep) && r != [])
  {
    var subset := Filter(pool, keep);
    if active && subset != [] then subset else pool
  }

  /** The pre-filters of `retrieve_best`, one per hint. */
  function TypeMatches(q: Query): EventRecord -> bool
  {
    (r: EventRecord) => q.typeHint.Some? && r.typ == q.typeHint.value
  }

  function NameMatches(q: Query): EventRecord -> bool
  {
    (r: EventRecord) => q.nameHint.Some? && NormalizeText(r.name) == NormalizeText(q.nameHint.value)
  }

  function RarityMatches(q: Query): EventRecord -> bool
  {
    (r: EventRecord) => q.rarityHint.Some? && NormalizeText(r.rarity) == NormalizeText(q.rarityHint.value)
  }

  function AttributeMatches(q: Query): EventRecord -> bool
  {
    (r: EventRecord) => q.attributeHint.Some? && NormalizeText(r.attribute) == NormalizeText(q.attributeHint.value)
  }

  function StepMatches(q: Query): EventRecord -> bool
  {
    (r: EventRecord) => q.chainStepHint.Some? && StepOr1(r.chainStep) == q.chainStepHint.value
  }

  /** The pool after the type, name, rarity, attribute and chain-step pre-filters of `retrieve_best`. */
  function HintPool(catalog: seq<EventRecord>, q: Query): seq<EventRecord>
  {
    var p1 := Narrow(catalog, Given(q.typeHint), TypeMatches(q));
    var p2 := Narrow(p1, Given(q.nameHint), NameMatches(q));
    var p3 := Narrow(p2, Given(q.rarityHint), RarityMatches(q));
    var p4 := Narrow(p3, Given(q.attributeHint), AttributeMatches(q));
    var p5 := Narrow(p4, q.chainStepHint.Some?, StepMatches(q));
    if p5 == [] then catalog else p5
  }

  lemma NarrowShrinks(pool: seq<EventRecord>, active: bool, keep: EventRecord -> bool)
    ensures multiset(Narrow(pool, active, keep)) <= multiset(pool)
    ensures pool != [] ==> Narrow(pool, active, keep) != []
  {
    FilterSubset(pool, keep);
  }

  /** Each pre-filter only ever keeps a non-empty part of the pool, so the pool never empties. */
  lemma {:induction false} HintPoolProps(catalog: seq<EventRecord>, q: Query)
    ensures multiset(HintPool(catalog, q)) <= multiset(catalog)
    ensures catalog != [] ==> HintPool(catalog, q) != []
  {
    var p1 := Narrow(catalog, Given(q.typeHint), TypeMatches(q));
    var p2 := Narrow(p1, Given(q.nameHint), NameMatches(q));
    var p3 := Narrow(p2, Given(q.rarityHint), RarityMatches(q));
    var p4 := Narrow(p3, Given(q.attributeHint), AttributeMatches(q));
    NarrowShrinks(catalog, Given(q.typeHint), TypeMatches(q));
    NarrowShrinks(p1, Given(q.nameHint), NameMatches(q));
    NarrowShrinks(p2, Given(q.rarityHint), RarityMatches(q));
    NarrowShrinks(p3, Given(q.attributeHint), AttributeMatches(q));
    NarrowShrinks(p4, q.chainStepHint.Some?, StepMatches(q));
  }

  const CvTextThreshold: real := 0.9
  const CvTemplateMin: nat := 1
  const CvTemplateMax: nat := 100

  function Take<T>(s: seq<T>, n: nat): (r: seq<T>)
    ensures |r| <= n && |r| <= |s|
    ensures r == s[..if n < |s| then n else |s|]
  {
    if n < |s| then s[..n] else s
  }

  function Recs(scored: seq<(EventRecord, real)>): (r: seq<EventRecord>)
    ensures |r| == |scored|
    ensures forall k :: 0 <= k < |r| ==> r[k] == scored[k].0
  {
    seq(|scored|, k requires 0 <= k < |scored| => scored[k].0)
  }

  function SimDesc(a: (EventRecord, real), b: (EventRecord, real)): bool
  {
    a.1 >= b.1
  }

  lemma RecsSubset(sub: seq<(EventRecord, real)>, sup: seq<(EventRecord, real)>)
    requires multiset(sub) <= multiset(sup)
    ensures forall x :: x in Recs(sub) ==> x in Recs(sup)
  {
    forall x | x in Recs(sub) ensures x in Recs(sup) {
      var k :| 0 <= k < |sub| && Recs(sub)[k] == x;
      assert sub[k] in multiset(sup);
      var j :| 0 <= j < |sup| && sup[j] == sub[k];
      assert Recs(sup)[j] == x;
    }
  }

  lemma TakeSubset<T>(s: seq<T>, n: nat)
    ensures multiset(Take(s, n)) <= multiset(s)
  {
    assert s == Take(s, n) + s[|Take(s, n)|..];
  }

  /** A title similarity reaching `_CV_TEMPLATE_TEXT_THRESHOLD` (0.9). */
  predicate High(p: (EventRecord, real)) { p.1 >= CvTextThreshold }

  /** A title similarity reaching half the threshold (0.45). */
  predicate Half(p: (EventRecord, real)) { p.1 >= CvTextThreshold / 2.0 }

  predicate Positive(p: (EventRecord, real)) { p.1 > 0.0 }

  /**
   * The cut of `_select_cv_candidates` on titles sorted best first: those
   * reaching 0.9 (at most 100), else those reaching 0.45, else the best 100.
   */
  function CutCandidates(scored: seq<(EventRecord, real)>): (r: seq<EventRecord>)
    ensures scored != [] ==> r != []
    ensures forall x :: x in r ==> x in Recs(scored)
  {
    var highPairs := Filter(scored, High);
    var halfPairs := Filter(scored, Half);
    FilterSubset(scored, High);
    FilterSubset(scored, Half);
    TakeSubset(scored, CvTemplateMax);
    TakeSubset(highPairs, CvTemplateMax);
    RecsSubset(Take(highPairs, CvTemplateMax), scored);
    RecsSubset(halfPairs, scored);
    RecsSubset(Take(scored, CvTemplateMax), scored);
    if |Recs(highPairs)| < CvTemplateMin then
      var half := Recs(halfPairs);
      if |half| < CvTemplateMin then Recs(Take(scored, CvTemplateMax)) else half
    else Recs(Take(highPairs, CvTemplateMax))
  }

  /**
   * The three tiers of the cut, stated on positions of a best-first list:
   * `r` is a prefix of the records; when the best title reaches 0.9, the
   * prefix holds only such titles, at most 100, and stops short of 100 only
   * where the titles reaching 0.9 run out; else, when the best reaches 0.45,
   * the prefix is exactly the titles reaching 0.45; else it is the best 100.
   */
  predicate Tiered(scored: seq<(EventRecord, real)>, r: seq<EventRecord>)
  {
    |r| <= |scored| && r == Recs(scored[..|r|]) &&
    (scored == [] ==> r == []) &&
    (scored != [] && High(scored[0]) ==>
       |r| <= CvTemplateMax &&
       (forall k :: 0 <= k < |r| ==> High(scored[k])) &&
       (|r| < CvTemplateMax ==> |r| == |scored| || !High(scored[|r|]))) &&
    (scored != [] && !High(scored[0]) && Half(scored[0]) ==>
       (forall k :: 0 <= k < |r| ==> Half(scored[k])) &&
       (|r| == |scored| || !Half(scored[|r|]))) &&
    (scored != [] && !Half(scored[0]) ==>
       |r| == if |scored| < CvTemplateMax then |scored| else CvTemplateMax)
  }

  /** On titles sorted best first, the cut keeps the tiers `_select_cv_candidates` describes. */
  lemma CutCandidatesTiers(scored: seq<(EventRecord, real)>)
    requires SortedBy(scored, SimDesc)
    ensures Tiered(scored, CutCandidates(scored))
  {
    FilterSortedPrefix(scored, SimDesc, High);
    FilterSortedPrefix(scored, SimDesc, Half);
    var highPairs := Filter(scored, High);
    var halfPairs := Filter(scored, Half);
    var r := CutCandidates(scored);
    if |highPairs| >= CvTemplateMin {
      var t := Take(highPairs, CvTemplateMax);
      assert t == scored[..|t|];
      assert r == Recs(t);
      forall k | 0 <= k < |r| ensures High(scored[k]) {
        assert scored[k] == highPairs[k];
      }
    } else if |halfPairs| >= CvTemplateMin {
      assert r == Recs(halfPairs);
      forall k | 0 <= k < |r| ensures Half(scored[k]) {
        assert scored[k] == halfPairs[k];
      }
    } else {
      assert r == Recs(Take(scored, CvTemplateMax));
    }
  }

  function TitleScores(qt: string, pool: seq<EventRecord>, m: Matchers): (all: seq<(EventRecord, real)>)
    ensures Recs(all) == pool
  {
    seq(|pool|, k requires 0 <= k < |pool| => (pool[k], TitleSimilarity(qt, pool[k], m)))
  }

  /** The records whose title scores above zero, with their scores, best first (stable). */
  function RankedTitles(qt: string, pool: seq<EventRecord>, m: Matchers): seq<(EventRecord, real)>
  {
    SortBy(Filter(TitleScores(qt, pool, m), Positive), SimDesc)
  }

  /** The ranked titles are sorted best first and hold the positive-scoring pairs, each as often as in the pool. */
  lemma RankedTitlesSorted(qt: string, pool: seq<EventRecord>, m: Matchers)
    ensures SortedBy(RankedTitles(qt, pool, m), SimDesc)
    ensures multiset(RankedTitles(qt, pool, m)) == multiset(Filter(TitleScores(qt, pool, m), Positive))
  {
    assert TotalPreorder(SimDesc);
    SortBySorted(Filter(TitleScores(qt, pool, m), Positive), SimDesc);
  }

  /** Each ranked title is a record of the pool with its title similarity, above zero. */
  lemma RankedTitlesMembers(qt: string, pool: seq<EventRecord>, m: Matchers)
    ensures var ranked := RankedTitles(qt, pool, m);
      forall k :: 0 <= k < |ranked| ==>
        ranked[k].0 in pool && ranked[k].1 == TitleSimilarity(qt, ranked[k].0, m) && ranked[k].1 > 0.0
  {
    var all := TitleScores(qt, pool, m);
    var ps := Filter(all, Positive);
    var ranked := RankedTitles(qt, pool, m);
    FilterExact(all, Positive);
    forall k | 0 <= k < |ranked|
      ensures ranked[k].0 in pool && ranked[k].1 == TitleSimilarity(qt, ranked[k].0, m) && ranked[k].1 > 0.0
    {
      assert ranked[k] in multiset(ps);
      var j :| 0 <= j < |all| && all[j] == ranked[k];
      assert ranked[k].0 == pool[j];
    }
  }

  /** No title is ranked exactly when no record's title scores above zero. */
  lemma RankedTitlesEmpty(qt: string, pool: seq<EventRecord>, m: Matchers)
    ensures RankedTitles(qt, pool, m) == [] <==> forall k :: 0 <= k < |pool| ==> TitleSimilarity(qt, pool[k], m) <= 0.0
  {
    var all := TitleScores(qt, pool, m);
    var ps := Filter(all, Positive);
    FilterExact(all, Positive);
    assert |RankedTitles(qt, pool, m)| == |ps|;
    if forall k :: 0 <= k < |pool| ==> TitleSimilarity(qt, pool[k], m) <= 0.0 {
      forall x | x in all ensures !Positive(x) {
        var j :| 0 <= j < |all| && all[j] == x;
      }
      assert forall x :: x !in ps;
      assert ps == [];
    } else {
      var k :| 0 <= k < |pool| && TitleSimilarity(qt, pool[k], m) > 0.0;
      assert all[k] in ps;
    }
  }

  /**
   * `_select_cv_candidates`: the titles that score above zero, best first,
   * cut by `CutCandidates`; the whole pool when the title is blank or nothing
   * scores.
   */
  function SelectCvCandidates(q: Query, pool: seq<EventRecord>, m: Matchers): (r: seq<EventRecord>)
    ensures pool != [] ==> r != []
    ensures forall x :: x in r ==> x in pool
    ensures NormalizeText(q.ocrTitle) == "" ==> r == pool
  {
    var qt := NormalizeText(q.ocrTitle);
    if qt == "" then pool
    else
      var all := TitleScores(qt, pool, m);
      var positive := Filter(all, Positive);
      if positive == [] then pool
      else
        var scored := SortBy(positive, SimDesc);
        FilterSubset(all, Positive);
        RecsSubset(scored, all);
        var chosen := CutCandidates(scored);
        if chosen != [] then chosen else pool
  }

  /**
   * With a non-blank title, the candidates are the whole pool when no title
   * scores above zero, and otherwise the tiers of the ranked titles.
   */
  lemma SelectCvCandidatesTiers(q: Query, pool: seq<EventRecord>, m: Matchers)
    requires NormalizeText(q.ocrTitle) != ""
    ensures var ranked := RankedTitles(NormalizeText(q.ocrTitle), pool, m);
      (ranked == [] ==> SelectCvCandidates(q, pool, m) == pool) &&
      (ranked != [] ==> Tiered(ranked, SelectCvCandidates(q, pool, m)))
  {
    var qt := NormalizeText(q.ocrTitle);
    var ranked := RankedTitles(qt, pool, m);
    RankedTitlesSorted(qt, pool, m);
    if ranked != [] {
      CutCandidatesTiers(ranked);
    }
  }

  // ---------------------------------------------------------------------
  // retrieve_best
  // ---------------------------------------------------------------------

  /** Descending by (score, text similarity, image similarity). */
  function RankBefore(a: MatchResult, b: MatchResult): bool
  {
    a.score > b.score || (a.score == b.score && (a.textSim > b.textSim || (a.textSim == b.textSim && a.imgSim >= b.imgSim)))
  }

  lemma RankBeforeIsTotalPreorder()
    ensures TotalPreorder(RankBefore)
  {
  }

  predicate IsGeneralTrainee(r: MatchResult)
  {
    r.rec.typ == "trainee" && r.rec.name == "general" && r.rec.rarity == "None" && r.rec.attribute == "None"
  }

  /** Index of the first result satisfying `p`, or `|rs|`. */
  function FirstIndex(rs: seq<MatchResult>, p: MatchResult -> bool): (i: nat)
    ensures i <= |rs|
    ensures i < |rs| ==> p(rs[i])
    ensures forall k :: 0 <= k < i ==> !p(rs[k])
    decreases |rs|
  {
    if rs == [] then 0 else if p(rs[0]) then 0 else 1 + FirstIndex(rs[1..], p)
  }

  /** A search that stops at the first hit finds exactly `FirstIndex`. */
  lemma {:induction false} FirstIndexIs(rs: seq<MatchResult>, p: MatchResult -> bool, i: nat)
    requires i <= |rs| && (i < |rs| ==> p(rs[i]))
    requires forall k :: 0 <= k < i ==> !p(rs[k])
    ensures FirstIndex(rs, p) == i
    decreases |rs|
  {
    if rs != [] && i > 0 {
      FirstIndexIs(rs[1..], p, i - 1);
    }
  }

  lemma SortedPrefix<T>(s: seq<T>, le: (T, T) -> bool, n: nat)
    requires SortedBy(s, le) && n <= |s|
    ensures SortedBy(s[..n], le)
  {
    forall a, b | 0 <= a < b < n ensures le(s[..n][a], s[..n][b]) {
      assert s[..n][a] == s[a] && s[..n][b] == s[b];
    }
  }

  /** `results.insert(0, results.pop(i))`. */
  function MoveToFront<T>(s: seq<T>, i: nat): (r: seq<T>)
    requires i < |s|
    ensures |r| == |s| && r[0] == s[i]
    ensures r[1..] == s[..i] + s[i + 1..]
    ensures multiset(r) == multiset(s)
  {
    assert s == s[..i] + [s[i]] + s[i + 1..];
    [s[i]] + s[..i] + s[i + 1..]
  }

  /** Whether the trainee-name promotion of `retrieve_best` applies to these results. */
  predicate PromotionApplies(q: Query, results: seq<MatchResult>)
  {
    q.typeHint == Some("trainee") && Given(q.preferredTraineeName) && |results| > 1
  }

  function PreferredName(q: Query): MatchResult -> bool
  {
    (r: MatchResult) => q.preferredTraineeName.Some? && NormalizeText(r.rec.name) == NormalizeText(q.preferredTraineeName.value)
  }

  /**
   * The trainee promotion: the first result named like the configured trainee
   * moves to the front; failing that, the first `trainee/general/None/None` result.
   */
  function Promote(q: Query, results: seq<MatchResult>): (r: seq<MatchResult>)
    ensures |r| == |results| && multiset(r) == multiset(results)
  {
    if !PromotionApplies(q, results) then results
    else
      var i := FirstIndex(results, PreferredName(q));
      if i < |results| then MoveToFront(results, i)
      else
        var j := FirstIndex(results, IsGeneralTrainee);
        if j < |results| then MoveToFront(results, j) else results
  }

  /** The records that get scored: the portrait candidates, or the whole pool. */
  function ScoringPool(q: Query, pool: seq<EventRecord>, m: Matchers): seq<EventRecord>
  {
    if q.hasPortraitImage then
      var cands := SelectCvCandidates(q, pool, m);
      if cands != [] then cands else pool
    else pool
  }

  function AllowedKeys(q: Query, pool: seq<EventRecord>, m: Matchers): Option<set<string>>
  {
    if q.hasPortraitImage then Some(set r | r in SelectCvCandidates(q, pool, m) :: r.key) else None
  }

  function ScoreAll(q: Query, recs: seq<EventRecord>, cvAllowed: Option<set<string>>, m: Matchers,
                    remoteCv: Dicts.Dict<string, real>): (rs: seq<MatchResult>)
    ensures |rs| == |recs|
  {
    seq(|recs|, k requires 0 <= k < |recs| =>
      ScoreCandidate(q, recs[k], PortraitPhash(q), Dicts.Lookup(remoteCv, recs[k].key), cvAllowed, m))
  }

  /** The scored candidates, best first, without those under `minScore`. */
  function Ranked(catalog: seq<EventRecord>, q: Query, minScore: real, m: Matchers,
                  remoteCv: Dicts.Dict<string, real>): seq<MatchResult>
  {
    var pool := HintPool(catalog, q);
    var scored := ScoreAll(q, ScoringPool(q, pool, m), AllowedKeys(q, pool, m), m, remoteCv);
    Filter(SortBy(scored, RankBefore), (r: MatchResult) => r.score >= minScore)
  }

  /**
   * What `retrieve_best` returns: the ranked list, promoted, cut to `topK`.
   * `minScore` is always passed in; the source's own default is 0.5, though
   * its docstring gives 0.80.
   */
  function RetrieveSpec(catalog: seq<EventRecord>, q: Query, topK: nat, minScore: real, m: Matchers,
                        remoteCv: Dicts.Dict<string, real>): seq<MatchResult>
  {
    Take(Promote(q, Ranked(catalog, q, minScore, m, remoteCv)), topK)
  }

  lemma {:induction false} SortedWithout<T>(s: seq<T>, le: (T, T) -> bool, i: nat)
    requires i < |s| && SortedBy(s, le)
    ensures SortedBy(s[..i] + s[i + 1..], le)
  {
    var t := s[..i] + s[i + 1..];
    forall a, b | 0 <= a < b < |t| ensures le(t[a], t[b]) {
      var a' := if a < i then a else a + 1;
      var b' := if b < i then b else b + 1;
      assert t[a] == s[a'] && t[b] == s[b'];
    }
  }

  /** The ranked list is ordered best first and every entry reaches `minScore`. */
  lemma {:induction false} RankedProps(catalog: seq<EventRecord>, q: Query, minScore: real, m: Matchers,
                                       remoteCv: Dicts.Dict<string, real>)
    ensures SortedBy(Ranked(catalog, q, minScore, m, remoteCv), RankBefore)
    ensures forall k :: 0 <= k < |Ranked(catalog, q, minScore, m, remoteCv)| ==>
              Ranked(catalog, q, minScore, m, remoteCv)[k].score >= minScore
  {
    var pool := HintPool(catalog, q);
    var scored := ScoreAll(q, ScoringPool(q, pool, m), AllowedKeys(q, pool, m), m, remoteCv);
    RankBeforeIsTotalPreorder();
    SortBySorted(scored, RankBefore);
    FilterSorted(SortBy(scored, RankBefore), RankBefore, (r: MatchResult) => r.score >= minScore);
  }

  /**
   * Promotion keeps the entries, moves at most one to the front, and leaves
   * the rest in their ranked order; without promotion nothing moves.
   */
  lemma {:induction false} PromoteProps(q: Query, ranked: seq<MatchResult>, minScore: real)
    requires SortedBy(ranked, RankBefore)
    requires forall k :: 0 <= k < |ranked| ==> ranked[k].score >= minScore
    ensures |Promote(q, ranked)| > 0 ==> SortedBy(Promote(q, ranked)[1..], RankBefore)
    ensures !PromotionApplies(q, ranked) ==> Promote(q, ranked) == ranked
    ensures forall k :: 0 <= k < |Promote(q, ranked)| ==> Promote(q, ranked)[k].score >= minScore
  {
    PromoteSortedTail(q, ranked);
    ScoresKept(ranked, Promote(q, ranked), minScore);
  }

  /** Promotion moves at most one result to the front; the rest stays in order. */
  lemma PromoteSortedTail(q: Query, ranked: seq<MatchResult>)
    requires SortedBy(ranked, RankBefore)
    ensures |Promote(q, ranked)| > 0 ==> SortedBy(Promote(q, ranked)[1..], RankBefore)
  {
    if PromotionApplies(q, ranked) {
      var i := FirstIndex(ranked, PreferredName(q));
      if i < |ranked| {
        assert Promote(q, ranked) == MoveToFront(ranked, i);
        MoveToFrontSortedTail(ranked, RankBefore, i);
      } else {
        var j := FirstIndex(ranked, IsGeneralTrainee);
        if j < |ranked| {
          assert Promote(q, ranked) == MoveToFront(ranked, j);
          MoveToFrontSortedTail(ranked, RankBefore, j);
        } else {
          assert Promote(q, ranked) == ranked;
          SortedTail(ranked, RankBefore);
        }
      }
    } else if |ranked| > 0 {
      assert Promote(q, ranked) == ranked;
      SortedTail(ranked, RankBefore);
    }
  }

  lemma MoveToFrontSortedTail<T>(s: seq<T>, le: (T, T) -> bool, i: nat)
    requires i < |s| && SortedBy(s, le)
    ensures SortedBy(MoveToFront(s, i)[1..], le)
  {
    SortedWithout(s, le, i);
  }

  lemma SortedTail<T>(s: seq<T>, le: (T, T) -> bool)
    requires |s| > 0 && SortedBy(s, le)
    ensures SortedBy(s[1..], le)
  {
    forall a, b | 0 <= a < b < |s| - 1 ensures le(s[1..][a], s[1..][b]) {
      assert s[1..][a] == s[a + 1] && s[1..][b] == s[b + 1];
    }
  }

  /** Results drawn from passing results pass too. */
  lemma ScoresKept(ranked: seq<MatchResult>, p: seq<MatchResult>, minScore: real)
    requires multiset(p) <= multiset(ranked)
    requires forall k :: 0 <= k < |ranked| ==> ranked[k].score >= minScore
    ensures forall k :: 0 <= k < |p| ==> p[k].score >= minScore
  {
    forall k | 0 <= k < |p| ensures p[k].score >= minScore {
      assert p[k] in multiset(ranked);
      var j :| 0 <= j < |ranked| && ranked[j] == p[k];
    }
  }

  /** Promoting and cutting an ordered list of passing results. */
  lemma {:induction false} PromotedCutProps(q: Query, ranked: seq<MatchResult>, topK: nat, minScore: real)
    requires SortedBy(ranked, RankBefore)
    requires forall k :: 0 <= k < |ranked| ==> ranked[k].score >= minScore
    ensures var r := Take(Promote(q, ranked), topK);
            |r| <= topK &&
            (forall k :: 0 <= k < |r| ==> r[k].score >= minScore) &&
            (|r| > 0 ==> SortedBy(r[1..], RankBefore)) &&
            (!PromotionApplies(q, ranked) ==> SortedBy(r, RankBefore)) &&
            multiset(r) <= multiset(ranked)
  {
    var p := Promote(q, ranked);
    var r := Take(p, topK);
    PromoteSortedTail(q, ranked);
    TakeSubset(p, topK);
    ScoresKept(ranked, r, minScore);
    if |r| > 0 {
      SortedPrefix(p[1..], RankBefore, |r| - 1);
      assert r[1..] == p[1..][..|r| - 1];
    }
    if !PromotionApplies(q, ranked) {
      SortedPrefix(ranked, RankBefore, |r|);
    }
  }

  /**
   * The results of `retrieve_best` are at most `topK`, all reach `minScore`,
   * are ordered best first after the (possibly promoted) head, and are fully
   * ordered when no promotion applies; they come from the ranked list.
   */
  lemma {:induction false} RetrieveSpecProps(catalog: seq<EventRecord>, q: Query, topK: nat, minScore: real,
                                             m: Matchers, remoteCv: Dicts.Dict<string, real>)
    ensures var r := RetrieveSpec(catalog, q, topK, minScore, m, remoteCv);
            var ranked := Ranked(catalog, q, minScore, m, remoteCv);
            |r| <= topK &&
            (forall k :: 0 <= k < |r| ==> r[k].score >= minScore) &&
            (|r| > 0 ==> SortedBy(r[1..], RankBefore)) &&
            (!PromotionApplies(q, ranked) ==> SortedBy(r, RankBefore)) &&
            multiset(r) <= multiset(ranked)
  {
    RankedProps(catalog, q, minScore, m, remoteCv);
    PromotedCutProps(q, Ranked(catalog, q, minScore, m, remoteCv), topK, minScore);
  }

  /** The hint pre-filters of `retrieve_best`, narrowing `pool` in place. */
  method NarrowByHints(catalog: seq<EventRecord>, q: Query) returns (pool: seq<EventRecord>)
    ensures pool == HintPool(catalog, q)
  {
    pool := catalog;
    if Given(q.typeHint) {
      var subset := Filter(pool, TypeMatches(q));
      if subset != [] { pool := subset; }
    }
    assert pool == Narrow(catalog, Given(q.typeHint), TypeMatches(q));
    ghost var p1 := pool;
    if Given(q.nameHint) {
      var subset := Filter(pool, NameMatches(q));
      if subset != [] { pool := subset; }
    }
    assert pool == Narrow(p1, Given(q.nameHint), NameMatches(q));
    ghost var p2 := pool;
    if Given(q.rarityHint) {
      var subset := Filter(pool, RarityMatches(q));
      if subset != [] { pool := subset; }
    }
    assert pool == Narrow(p2, Given(q.rarityHint), RarityMatches(q));
    ghost var p3 := pool;
    if Given(q.attributeHint) {
      var subset := Filter(pool, AttributeMatches(q));
      if subset != [] { pool := subset; }
    }
    assert pool == Narrow(p3, Given(q.attributeHint), AttributeMatches(q));
    ghost var p4 := pool;
    if q.chainStepHint.Some? {
      var subset := Filter(pool, StepMatches(q));
      if subset != [] { pool := subset; }
    }
    assert pool == Narrow(p4, q.chainStepHint.Some?, StepMatches(q));
    if pool == [] {
      pool := catalog;
    }
  }

  /** The `for i, res in enumerate(results)` search for the first hit. */
  method FindFirst(rs: seq<MatchResult>, p: MatchResult -> bool) returns (i: nat)
    ensures i == FirstIndex(rs, p)
  {
    i := 0;
    while i < |rs| && !p(rs[i])
      invariant 0 <= i <= |rs|
      invariant forall k :: 0 <= k < i ==> !p(rs[k])
      decreases |rs| - i
    {
      i := i + 1;
    }
    FirstIndexIs(rs, p, i);
  }

  /** The trainee promotion of `retrieve_best`, searching the ranked list front to back. */
  method PromoteTrainee(q: Query, ranked: seq<MatchResult>) returns (results: seq<MatchResult>)
    ensures results == Promote(q, ranked)
  {
    results := ranked;
    if q.typeHint == Some("trainee") && Given(q.preferredTraineeName) && |results| > 1 {
      var i := FindFirst(results, PreferredName(q));
      if i < |results| {
        results := MoveToFront(results, i);
      } else {
        var j := FindFirst(results, IsGeneralTrainee);
        if j < |results| {
          results := MoveToFront(results, j);
        }
      }
    }
  }

  /**
   * `retrieve_best`: narrows the pool hint by hint, picks the portrait
   * candidates, scores, sorts, drops results under `minScore`, promotes the
   * configured trainee and cuts to `topK`.
   */
  method RetrieveBest(catalog: seq<EventRecord>, q: Query, topK: nat, minScore: real, m: Matchers,
                      remoteCv: Dicts.Dict<string, real>) returns (results: seq<MatchResult>)
    ensures results == RetrieveSpec(catalog, q, topK, minScore, m, remoteCv)
    ensures |results| <= topK
    ensures forall k :: 0 <= k < |results| ==> results[k].score >= minScore
  {
    var pool := NarrowByHints(catalog, q);
    var cvAllowed: Option<set<string>> := None;
    var cvCandidates := pool;
    if q.hasPortraitImage {
      cvCandidates := SelectCvCandidates(q, pool, m);
      cvAllowed := Some(set r | r in cvCandidates :: r.key);
    }
    var scoringPool := if cvCandidates != [] then cvCandidates else pool;
    assert scoringPool == ScoringPool(q, pool, m) && cvAllowed == AllowedKeys(q, pool, m);
    var scored := ScoreAll(q, scoringPool, cvAllowed, m, remoteCv);
    var ranked := Filter(SortBy(scored, RankBefore), (r: MatchResult) => r.score >= minScore);
    results := PromoteTrainee(q, ranked);
    results := Take(results, topK);
    RetrieveSpecProps(catalog, q, topK, minScore, m, remoteCv);
  }
}
