/** A Python `dict` with string keys: its entries in insertion order, each key once. */
module Dicts {

  type Entries<V> = seq<(string, V)>

  predicate UniqueKeys<V>(d: Entries<V>)
  {
    forall i, j :: 0 <= i < j < |d| ==> d[i].0 != d[j].0
  }

  function KeySet<V>(d: Entries<V>): set<string>
  {
    set i | 0 <= i < |d| :: d[i].0
  }

  lemma KeySetSnoc<V>(d: Entries<V>)
    requires d != []
    ensures KeySet(d) == KeySet(d[..|d| - 1]) + {d[|d| - 1].0}
  {
    var init := d[..|d| - 1];
    forall k | k in KeySet(d) ensures k in KeySet(init) + {d[|d| - 1].0} {
      var i :| 0 <= i < |d| && d[i].0 == k;
      if i < |d| - 1 { assert init[i].0 == k; }
    }
  }

  /** The mapping the entries denote; a later entry for a key wins. */
  function ToMap<V>(d: Entries<V>): (m: map<string, V>)
    ensures m.Keys == KeySet(d)
  {
    if d == [] then map[]
    else
      KeySetSnoc(d);
      ToMap(d[..|d| - 1])[d[|d| - 1].0 := d[|d| - 1].1]
  }

  /** With unique keys every entry is what the mapping gives for its key. */
  lemma {:induction false} ToMapAt<V>(d: Entries<V>, i: int)
    requires UniqueKeys(d) && 0 <= i < |d|
    ensures d[i].0 in ToMap(d) && ToMap(d)[d[i].0] == d[i].1
  {
    if i < |d| - 1 {
      var init := d[..|d| - 1];
      assert init[i] == d[i];
      ToMapAt(init, i);
    }
  }

  /** `d[k] = v`: an existing key keeps its position and takes the new value,
      a new key is appended at the end. */
  function Put<V>(d: Entries<V>, k: string, v: V): (r: Entries<V>)
    requires UniqueKeys(d)
    ensures UniqueKeys(r)
    ensures KeySet(r) == KeySet(d) + {k}
    ensures k !in KeySet(d) ==> r == d + [(k, v)]
    ensures k in KeySet(d) ==>
              && |r| == |d|
              && forall i :: 0 <= i < |d| ==> r[i] == if d[i].0 == k then (k, v) else d[i]
  {
    if k in KeySet(d) then
      var r := seq(|d|, i requires 0 <= i < |d| => if d[i].0 == k then (k, v) else d[i]);
      assert KeySet(r) == KeySet(d) by {
        forall x | x in KeySet(d) ensures x in KeySet(r) {
          var i :| 0 <= i < |d| && d[i].0 == x;
          assert r[i].0 == x;
        }
      }
      r
    else
      var r := d + [(k, v)];
      assert KeySet(r) == KeySet(d) + {k} by {
        forall x | x in KeySet(r) ensures x in KeySet(d) + {k} {
          var i :| 0 <= i < |r| && r[i].0 == x;
          if i < |d| { assert r[i] == d[i]; } else { assert r[i] == (k, v); }
        }
        assert r[|d|] == (k, v);
        forall x | x in KeySet(d) ensures x in KeySet(r) {
          var i :| 0 <= i < |d| && d[i].0 == x;
          assert r[i] == d[i];
        }
      }
      r
  }

  /** Growing a prefix of the entries by one entry. */
  lemma PrefixSnoc<V>(d: Entries<V>, i: int)
    requires 0 <= i < |d|
    ensures d[..i + 1] == d[..i] + [d[i]]
    ensures ToMap(d[..i + 1]) == ToMap(d[..i])[d[i].0 := d[i].1]
    ensures KeySet(d[..i + 1]) == KeySet(d[..i]) + {d[i].0}
  {
    assert d[..i + 1][..i] == d[..i];
    KeySetSnoc(d[..i + 1]);
  }

  /** In a dict, the key of entry `i` is not among the keys before it. */
  lemma PrefixUnique<V>(d: Entries<V>, i: int)
    requires UniqueKeys(d) && 0 <= i <= |d|
    ensures UniqueKeys(d[..i])
  {
  }

  lemma PrefixFresh<V>(d: Entries<V>, i: int)
    requires UniqueKeys(d) && 0 <= i < |d|
    ensures d[i].0 !in KeySet(d[..i])
  {
  }

  /** After `d[k] = v`, looking up `k` gives `v`. */
  lemma PutLookup<V>(d: Entries<V>, k: string, v: V)
    requires UniqueKeys(d)
    ensures k in ToMap(Put(d, k, v)) && ToMap(Put(d, k, v))[k] == v
  {
    var r := Put(d, k, v);
    if k in KeySet(d) {
      var i :| 0 <= i < |d| && d[i].0 == k;
      assert r[i] == (k, v);
      ToMapAt(r, i);
    } else {
      assert r[|d|] == (k, v);
      ToMapAt(r, |d|);
    }
  }

  /** After `d[k] = v`, every other key still gives what it gave before. */
  lemma PutLookupOther<V>(d: Entries<V>, k: string, v: V, other: string)
    requires UniqueKeys(d) && other != k && other in ToMap(d)
    ensures other in ToMap(Put(d, k, v)) && ToMap(Put(d, k, v))[other] == ToMap(d)[other]
  {
    var r := Put(d, k, v);
    var i :| 0 <= i < |d| && d[i].0 == other;
    assert r[i] == d[i];
    ToMapAt(d, i);
    ToMapAt(r, i);
  }

  /** Two dicts holding the same entries denote the same mapping, whatever their order. */
  lemma SameEntriesSameMap<V>(d1: Entries<V>, d2: Entries<V>)
    requires UniqueKeys(d1) && UniqueKeys(d2)
    requires forall e :: e in d1 <==> e in d2
    ensures ToMap(d1) == ToMap(d2)
  {
    forall k | k in ToMap(d1) ensures k in ToMap(d2) && ToMap(d1)[k] == ToMap(d2)[k] {
      var i :| 0 <= i < |d1| && d1[i].0 == k;
      ToMapAt(d1, i);
      assert d1[i] in d2;
      var j :| 0 <= j < |d2| && d2[j] == d1[i];
      ToMapAt(d2, j);
    }
    forall k | k in ToMap(d2) ensures k in ToMap(d1) {
      var j :| 0 <= j < |d2| && d2[j].0 == k;
      assert d2[j] in d1;
    }
  }
}
