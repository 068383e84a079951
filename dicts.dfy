/** Python dicts. A `Row` is a dict whose insertion order still matters (it
    feeds a string join); a `Record` is a dict whose order no longer matters.
    Also the key-set union and the `None` padding every loader applies before
    creating the vector table. */
module Dicts {
  import opened Json

  /** A dict as its entries in insertion order. */
  type Row = seq<(string, Value)>

  /** A dict as a finite map. */
  type Record = map<string, Value>

  function Keys(d: Row): set<string> {
    set i | 0 <= i < |d| :: d[i].0
  }

  lemma KeysOfInit(d: Row)
    requires d != []
    ensures Keys(d) == Keys(d[..|d| - 1]) + {d[|d| - 1].0}
  {
    var init := d[..|d| - 1];
    forall k | k in Keys(d) ensures k in Keys(init) + {d[|d| - 1].0} {
      var i :| 0 <= i < |d| && d[i].0 == k;
      if i < |d| - 1 { assert init[i] == d[i]; }
    }
    forall k | k in Keys(init) ensures k in Keys(d) {
      var i :| 0 <= i < |init| && init[i].0 == k;
      assert d[i] == init[i];
    }
  }

  /** `d.get(k)`: the value of the last entry for `k`, or None when there is
      none; a key given twice takes its last value, as `json.loads` does. */
  function Get(d: Row, k: string): Value
    decreases |d|
  {
    if d == [] then Null
    else if d[|d| - 1].0 == k then d[|d| - 1].1
    else Get(d[..|d| - 1], k)
  }

  /** The dict a row denotes, once its order no longer matters. */
  function ToMap(d: Row): Record {
    map k | k in Keys(d) :: Get(d, k)
  }

  /** `d.values()`, in insertion order. */
  function Values(d: Row): seq<Value> {
    seq(|d|, i requires 0 <= i < |d| => d[i].1)
  }

  /** Every entry whose key is `k` now holds `v`. */
  function Overwrite(d: Row, k: string, v: Value): (r: Row)
    ensures |r| == |d|
    ensures forall i :: 0 <= i < |d| ==> r[i].0 == d[i].0
    decreases |d|
  {
    if d == [] then []
    else
      var last := d[|d| - 1];
      Overwrite(d[..|d| - 1], k, v) + [if last.0 == k then (k, v) else last]
  }

  /** `d[k] = v` (and `{**d, k: v}`): an existing key keeps its position and
      takes the new value; a new key goes to the end. */
  function Set(d: Row, k: string, v: Value): (r: Row)
    ensures |r| == |d| + (if k in Keys(d) then 0 else 1)
    ensures forall i :: 0 <= i < |d| ==> r[i].0 == d[i].0
    ensures k !in Keys(d) ==> r == d + [(k, v)]
  {
    if k in Keys(d) then Overwrite(d, k, v) else d + [(k, v)]
  }

  lemma {:induction false} OverwriteGet(d: Row, k: string, v: Value, k': string)
    ensures Get(Overwrite(d, k, v), k') == if k' == k && k in Keys(d) then v else Get(d, k')
    decreases |d|
  {
    if d != [] {
      var init := d[..|d| - 1];
      var o := Overwrite(d, k, v);
      assert o[..|d| - 1] == Overwrite(init, k, v);
      OverwriteGet(init, k, v, k');
      KeysOfInit(d);
    }
  }

  lemma KeysOfSameKeys(d: Row, r: Row)
    requires |r| == |d| && forall i :: 0 <= i < |d| ==> r[i].0 == d[i].0
    ensures Keys(r) == Keys(d)
  {
    forall k | k in Keys(r) ensures k in Keys(d) {
      var i :| 0 <= i < |r| && r[i].0 == k;
    }
    forall k | k in Keys(d) ensures k in Keys(r) {
      var i :| 0 <= i < |d| && d[i].0 == k;
      assert r[i].0 == k;
    }
  }

  /** After `d[k] = v`: the keys gain `k`, `k` holds `v`, every other key is
      unchanged. */
  lemma SetGet(d: Row, k: string, v: Value)
    ensures Keys(Set(d, k, v)) == Keys(d) + {k}
    ensures forall k' :: Get(Set(d, k, v), k') == if k' == k then v else Get(d, k')
  {
    var r := Set(d, k, v);
    if k in Keys(d) {
      KeysOfSameKeys(d, r);
      forall k' ensures Get(r, k') == if k' == k then v else Get(d, k') {
        OverwriteGet(d, k, v, k');
      }
    } else {
      assert r[..|d|] == d;
      KeysOfInit(r);
    }
  }

  /** As a map, `d[k] = v` is a map update. */
  lemma SetToMap(d: Row, k: string, v: Value)
    ensures ToMap(Set(d, k, v)) == ToMap(d)[k := v]
  {
    SetGet(d, k, v);
  }

  /** The union of the key sets of `rs`, gathered left to right as the loaders'
      `key_set.update(set(r.keys()))` loop does. */
  function UnionKeys(rs: seq<Record>): set<string>
    decreases |rs|
  {
    if rs == [] then {} else UnionKeys(rs[..|rs| - 1]) + rs[|rs| - 1].Keys
  }

  /** A key is in the union exactly when some record has it. */
  lemma {:induction false} UnionKeysSpec(rs: seq<Record>, k: string)
    ensures k in UnionKeys(rs) <==> exists i :: 0 <= i < |rs| && k in rs[i]
    decreases |rs|
  {
    if rs != [] {
      var init := rs[..|rs| - 1];
      UnionKeysSpec(init, k);
      if k in UnionKeys(init) {
        var i :| 0 <= i < |init| && k in init[i];
        assert rs[i] == init[i];
      }
      if i :| 0 <= i < |rs| && k in rs[i] {
        if i < |rs| - 1 { assert init[i] == rs[i]; }
      }
    }
  }

  /** Every record's keys lie in the union. */
  lemma UnionKeysCover(rs: seq<Record>, i: int)
    requires 0 <= i < |rs|
    ensures rs[i].Keys <= UnionKeys(rs)
  {
    forall k | k in rs[i] ensures k in UnionKeys(rs) {
      UnionKeysSpec(rs, k);
    }
  }

  /** The `key_set` loop: `for r in records: key_set.update(set(r.keys()))`. */
  method CollectKeys(rs: seq<Record>) returns (keySet: set<string>)
    ensures keySet == UnionKeys(rs)
  {
    keySet := {};
    var i := 0;
    while i < |rs|
      invariant 0 <= i <= |rs|
      invariant keySet == UnionKeys(rs[..i])
    {
      assert rs[..i + 1][..i] == rs[..i];
      keySet := keySet + rs[i].Keys;
      i := i + 1;
    }
    assert rs[..|rs|] == rs;
  }

  /** `{**{k: None for k in key_set}, **d}`. */
  function Pad(d: Record, keySet: set<string>): (p: Record)
    ensures p.Keys == keySet + d.Keys
    ensures forall k :: k in d ==> p[k] == d[k]
    ensures forall k :: k in p && k !in d ==> p[k] == Null
  {
    (map k | k in keySet :: Null) + d
  }

  /** `[{**{k: None for k in key_set}, **d} for d in data]`. */
  function PadAll(rs: seq<Record>, keySet: set<string>): (ps: seq<Record>)
    ensures |ps| == |rs|
    ensures forall i :: 0 <= i < |rs| ==> ps[i] == Pad(rs[i], keySet)
  {
    seq(|rs|, i requires 0 <= i < |rs| => Pad(rs[i], keySet))
  }

  /** After padding to the union, every record has exactly the union's keys,
      keeps each original value, and holds None only under the keys it gained. */
  lemma {:induction false} PaddedToUnion(rs: seq<Record>)
    ensures |PadAll(rs, UnionKeys(rs))| == |rs|
    ensures forall i :: 0 <= i < |rs| ==> PadAll(rs, UnionKeys(rs))[i].Keys == UnionKeys(rs)
    ensures forall i, k :: 0 <= i < |rs| && k in rs[i] ==> PadAll(rs, UnionKeys(rs))[i][k] == rs[i][k]
    ensures forall i, k :: 0 <= i < |rs| && k in UnionKeys(rs) && k !in rs[i] ==>
      PadAll(rs, UnionKeys(rs))[i][k] == Null
  {
    forall i | 0 <= i < |rs| ensures PadAll(rs, UnionKeys(rs))[i].Keys == UnionKeys(rs) {
      UnionKeysCover(rs, i);
    }
  }
}
