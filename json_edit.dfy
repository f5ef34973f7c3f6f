/**
 * In-place edits of a JSON object as Python performs them on a dict:
 * `d[k] = v` overwrites the first pair with key `k` or appends a new pair,
 * and `d.pop(k, None)` removes that pair.
 */
module JsonEdit {
  import opened Wrappers
  import opened JsonValues
  import opened Sorting
  import Dicts

  /** `d[key] = v` on an object's pairs. */
  function SetField(j: Json, key: string, v: Json): (r: Json)
    requires j.JObj?
    ensures r.JObj?
  {
    JObj(Dicts.Assign(j.fields, key, v))
  }

  /** `d.pop(key, None)`: the object without its first pair carrying `key`. */
  function PopField(j: Json, key: string): (r: Json)
    requires j.JObj?
    ensures r.JObj?
  {
    var i := Dicts.IndexOfKey(j.fields, key);
    if i < |j.fields| then JObj(j.fields[..i] + j.fields[i + 1..]) else j
  }

  /** `key in d` on an object. */
  predicate HasField(j: Json, key: string)
  {
    Field(j, key).Some?
  }

  /** The first-pair lookup of `Get` is the dictionary lookup. */
  lemma {:induction false} GetIsLookup(fields: seq<(string, Json)>, key: string)
    ensures Get(fields, key) == Dicts.Lookup(fields, key)
    decreases |fields|
  {
    if |fields| > 0 && fields[0].0 != key {
      GetIsLookup(fields[1..], key);
    }
  }

  /** After `d[key] = v`, `key` reads `v` and every other key reads as before. */
  lemma {:induction false} FieldAfterSet(j: Json, key: string, v: Json, k: string)
    requires j.JObj?
    ensures Field(SetField(j, key, v), k) == if k == key then Some(v) else Field(j, k)
    decreases |j.fields|
  {
    var f := j.fields;
    var i := Dicts.IndexOfKey(f, key);
    if |f| > 0 && f[0].0 != key {
      var tail := JObj(f[1..]);
      FieldAfterSet(tail, key, v, k);
      var r := Dicts.Assign(f, key, v);
      assert Dicts.IndexOfKey(f, key) == 1 + Dicts.IndexOfKey(f[1..], key);
      assert r == [f[0]] + Dicts.Assign(f[1..], key, v);
      assert r[0] == f[0] && r[1..] == Dicts.Assign(f[1..], key, v);
    }
  }

  /** `FieldAfterSet` for every key at once. */
  lemma FieldsAfterSet(j: Json, key: string, v: Json)
    requires j.JObj?
    ensures Field(SetField(j, key, v), key) == Some(v)
    ensures forall k :: k != key ==> Field(SetField(j, key, v), k) == Field(j, k)
  {
    FieldAfterSet(j, key, v, key);
    forall k | k != key ensures Field(SetField(j, key, v), k) == Field(j, k) {
      FieldAfterSet(j, key, v, k);
    }
  }

  /** After `d.pop(key)`, `key` is gone and every other key reads as before. */
  lemma {:induction false} FieldAfterPop(j: Json, key: string, k: string)
    requires j.JObj?
    requires Dicts.UniqueKeys(j.fields)
    ensures Field(PopField(j, key), k) == if k == key then None else Field(j, k)
    decreases |j.fields|
  {
    var f := j.fields;
    if |f| > 0 {
      if f[0].0 == key {
        assert PopField(j, key) == JObj(f[1..]);
        if k == key {
          assert forall m :: 0 <= m < |f[1..]| ==> f[1..][m].0 != k by {
            forall m | 0 <= m < |f[1..]| ensures f[1..][m].0 != k { assert f[1..][m] == f[m + 1]; }
          }
          NoKeyGet(f[1..], k);
        }
      } else {
        var tail := JObj(f[1..]);
        FieldAfterPop(tail, key, k);
        var i := Dicts.IndexOfKey(f, key);
        if i < |f| {
          assert i == 1 + Dicts.IndexOfKey(f[1..], key);
          assert f[..i] + f[i + 1..] == [f[0]] + (f[1..][..i - 1] + f[1..][i..]);
        }
      }
    }
  }

  /** `d[key] = v` keeps one pair per key. */
  lemma SetFieldUnique(j: Json, key: string, v: Json)
    requires j.JObj? && Dicts.UniqueKeys(j.fields)
    ensures Dicts.UniqueKeys(SetField(j, key, v).fields)
  {
    Dicts.AssignProps(j.fields, key, v);
  }

  /** `d.pop(key)` keeps one pair per key. */
  lemma PopFieldUnique(j: Json, key: string)
    requires j.JObj? && Dicts.UniqueKeys(j.fields)
    ensures Dicts.UniqueKeys(PopField(j, key).fields)
  {
    var f := j.fields;
    var i := Dicts.IndexOfKey(f, key);
    if i < |f| {
      var g := f[..i] + f[i + 1..];
      forall a, b | 0 <= a < b < |g| ensures g[a].0 != g[b].0 {
        assert g[a] == f[if a < i then a else a + 1];
        assert g[b] == f[if b < i then b else b + 1];
      }
    }
  }

  /**
   * A dict comprehension `{k: v for k, v in d.items() if keep(k, v)}`: on an
   * object with one pair per key, a key reads its old value when that pair
   * is kept and is absent otherwise.
   */
  lemma {:induction false} GetFiltered(fields: seq<(string, Json)>, keep: ((string, Json)) -> bool, k: string)
    requires Dicts.UniqueKeys(fields)
    ensures Get(Filter(fields, keep), k) ==
            if Get(fields, k).Some? && keep((k, Get(fields, k).value)) then Get(fields, k) else None
    decreases |fields|
  {
    if |fields| > 0 {
      var tail := fields[1..];
      assert Dicts.UniqueKeys(tail) by {
        forall a, b | 0 <= a < b < |tail| ensures tail[a].0 != tail[b].0 {
          assert tail[a] == fields[a + 1] && tail[b] == fields[b + 1];
        }
      }
      GetFiltered(tail, keep, k);
      if fields[0].0 == k {
        assert forall m :: 0 <= m < |tail| ==> tail[m].0 != k by {
          forall m | 0 <= m < |tail| ensures tail[m].0 != k { assert tail[m] == fields[m + 1]; }
        }
        NoKeyGet(tail, k);
      }
    }
  }

  lemma {:induction false} NoKeyGet(fields: seq<(string, Json)>, k: string)
    requires forall m :: 0 <= m < |fields| ==> fields[m].0 != k
    ensures Get(fields, k).None?
  {
  }
}
