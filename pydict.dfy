/** The Python `dict` operations the backend relies on. A dict remembers
    insertion order: assigning to a new key appends it, assigning to an
    existing key replaces its value where it stands, and `values()` lists the
    values in that order. The order matters here because the dashboard
    compares the emitted device list position by position. */
module PyDict {

  datatype Option<T> = None | Some(value: T)

  /** Entries in insertion order; the backend's dicts are keyed by device name. */
  type Dict<V> = seq<(string, V)>

  /** No key occurs twice: true of every dict Python builds. */
  ghost predicate Distinct<V>(d: Dict<V>)
  {
    forall i, j :: 0 <= i < j < |d| ==> d[i].0 != d[j].0
  }

  function Keys<V>(d: Dict<V>): set<string>
  {
    set i | 0 <= i < |d| :: d[i].0
  }

  lemma KeysCons<V>(d: Dict<V>)
    requires d != []
    ensures Keys(d) == {d[0].0} + Keys(d[1..])
  {
    forall k | k in Keys(d) ensures k in {d[0].0} + Keys(d[1..]) {
      var i :| 0 <= i < |d| && d[i].0 == k;
      if i > 0 { assert d[1..][i - 1].0 == k; }
    }
    forall k | k in Keys(d[1..]) ensures k in Keys(d) {
      var i :| 0 <= i < |d[1..]| && d[1..][i].0 == k;
      assert d[i + 1].0 == k;
    }
  }

  /** `d.get(k)`: the value stored under `k`, if any. */
  function Get<V>(d: Dict<V>, k: string): (r: Option<V>)
    ensures r.Some? <==> k in Keys(d)
    ensures r.Some? ==> (k, r.value) in d
  {
    if d == [] then None
    else (
      KeysCons(d);
      if d[0].0 == k then Some(d[0].1) else Get(d[1..], k))
  }

  /** The entry at position `i` is what `Get` finds for its key. */
  lemma {:induction false} GetAt<V>(d: Dict<V>, i: nat)
    requires Distinct(d) && i < |d|
    ensures Get(d, d[i].0) == Some(d[i].1)
  {
    if i > 0 {
      assert d[0].0 != d[i].0;
      assert d[1..][i - 1] == d[i];
      GetAt(d[1..], i - 1);
    }
  }

  /** `d[k] = v`: a new key goes at the end, an existing key keeps its
      place and takes the new value. */
  function Put<V>(d: Dict<V>, k: string, v: V): (r: Dict<V>)
    ensures Keys(r) == Keys(d) + {k}
    ensures k !in Keys(d) ==> r == d + [(k, v)]
    ensures k in Keys(d) ==> |r| == |d| && forall i :: 0 <= i < |d| ==> r[i].0 == d[i].0
  {
    if k in Keys(d) then
      var r := seq(|d|, i requires 0 <= i < |d| => if d[i].0 == k then (k, v) else d[i]);
      assert forall i :: 0 <= i < |d| ==> r[i].0 == d[i].0;
      r
    else
      var r := d + [(k, v)];
      assert r[|d|].0 == k;
      assert forall i :: 0 <= i < |d| ==> r[i] == d[i];
      r
  }

  /** After `d[k] = v` the dict is still a dict, `k` maps to `v` and every
      other key keeps its value. */
  lemma PutGet<V>(d: Dict<V>, k: string, v: V)
    requires Distinct(d)
    ensures Distinct(Put(d, k, v))
    ensures Get(Put(d, k, v), k) == Some(v)
    ensures forall k' :: k' != k ==> Get(Put(d, k, v), k') == Get(d, k')
  {
    var r := Put(d, k, v);
    assert Distinct(r);
    forall k' ensures Get(r, k') == if k' == k then Some(v) else Get(d, k') {
      if k' in Keys(r) {
        var i :| 0 <= i < |r| && r[i].0 == k';
        GetAt(r, i);
        if k' != k {
          GetAt(d, i);
        } else if k in Keys(d) {
          assert r[i] == (k, v);
        } else {
          assert i == |d|;
        }
      }
    }
  }

  /** `d.update(other)`: assign each of `other`'s entries in turn. */
  function Update<V>(d: Dict<V>, other: Dict<V>): (r: Dict<V>)
    requires Distinct(d) && Distinct(other)
    ensures Keys(r) == Keys(d) + Keys(other)
    ensures Distinct(r)
    ensures forall k :: k in Keys(other) ==> Get(r, k) == Get(other, k)
    ensures forall k :: k !in Keys(other) ==> Get(r, k) == Get(d, k)
    decreases |other|
  {
    if other == [] then d
    else (
      KeysCons(other);
      var d' := Put(d, other[0].0, other[0].1);
      PutGet(d, other[0].0, other[0].1);
      Update(d', other[1..]))
  }

  /** `list(d.values())`. */
  function Values<V>(d: Dict<V>): (vs: seq<V>)
    ensures |vs| == |d|
    ensures forall i :: 0 <= i < |d| ==> vs[i] == d[i].1
  {
    seq(|d|, i requires 0 <= i < |d| => d[i].1)
  }
}
