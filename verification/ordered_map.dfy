/**
 * Insertion-ordered dictionaries with string keys, as Python `dict` and JavaScript objects with
 * non-numeric keys behave: a new key goes to the end, an existing key keeps
 * its place when its value is replaced, and iteration follows `keys`.
 */
module OrderedMap {

  predicate Distinct(s: seq<string>) {
    forall i, j :: 0 <= i < j < |s| ==> s[i] != s[j]
  }

  datatype OMap<V> = OMap(keys: seq<string>, values: map<string, V>) {
    ghost predicate Valid() {
      Distinct(keys) && (forall k :: k in values <==> k in keys)
    }
  }

  function Empty<V>(): (d: OMap<V>)
    ensures d.Valid() && |d.keys| == 0 && d.values == map[]
  {
    OMap([], map[])
  }

  /** `d[k] = v` */
  function Put<V>(d: OMap<V>, k: string, v: V): (r: OMap<V>)
    requires d.Valid()
    ensures r.Valid()
    ensures r.values == d.values[k := v]
    ensures k in d.keys ==> r.keys == d.keys
    ensures k !in d.keys ==> r.keys == d.keys + [k]
  {
    if k in d.keys then OMap(d.keys, d.values[k := v])
    else OMap(d.keys + [k], d.values[k := v])
  }

  function RemoveKey(s: seq<string>, k: string): (r: seq<string>)
    ensures forall x :: x in r <==> x in s && x != k
    ensures k !in s ==> r == s
  {
    if |s| == 0 then []
    else if s[0] == k then RemoveKey(s[1..], k)
    else [s[0]] + RemoveKey(s[1..], k)
  }

  lemma {:induction false} RemoveKeyDistinct(s: seq<string>, k: string)
    requires Distinct(s)
    ensures Distinct(RemoveKey(s, k))
  {
    if |s| > 0 {
      assert Distinct(s[1..]) by {
        forall i, j | 0 <= i < j < |s| - 1 ensures s[1..][i] != s[1..][j] {
          assert s[1..][i] == s[i + 1] && s[1..][j] == s[j + 1];
        }
      }
      RemoveKeyDistinct(s[1..], k);
      if s[0] != k {
        assert s[0] !in s[1..] by {
          forall i | 0 <= i < |s| - 1 ensures s[1..][i] != s[0] {
            assert s[1..][i] == s[i + 1];
          }
        }
        DistinctCons(s[0], RemoveKey(s[1..], k));
      }
    }
  }

  lemma {:induction false} DistinctCons(x: string, r: seq<string>)
    requires x !in r && Distinct(r)
    ensures Distinct([x] + r)
  {
    var s := [x] + r;
    forall i, j | 0 <= i < j < |s| ensures s[i] != s[j] {
      if i > 0 { assert s[i] == r[i - 1] && s[j] == r[j - 1]; }
      else { assert s[j] == r[j - 1]; }
    }
  }

  /**
   * Removal works element by element: it distributes over concatenation, so
   * the keys that stay keep their relative order.
   */
  lemma {:induction false} RemoveKeyAppend(a: seq<string>, b: seq<string>, k: string)
    ensures RemoveKey(a + b, k) == RemoveKey(a, k) + RemoveKey(b, k)
    decreases |a|
  {
    if |a| > 0 {
      assert (a + b)[0] == a[0] && (a + b)[1..] == a[1..] + b;
      RemoveKeyAppend(a[1..], b, k);
      if a[0] != k {
        assert RemoveKey(a + b, k) == [a[0]] + (RemoveKey(a[1..], k) + RemoveKey(b, k));
      }
    } else {
      assert a + b == b;
    }
  }

  /**
   * Removing a key that occurs once, at position `p`, cuts out that position
   * and leaves the other keys in their order.
   */
  lemma {:induction false} RemoveKeyAt(s: seq<string>, k: string, p: nat)
    requires p < |s| && s[p] == k && k !in s[..p] && k !in s[p + 1..]
    ensures RemoveKey(s, k) == s[..p] + s[p + 1..]
  {
    var after := s[p + 1..];
    assert s == s[..p] + ([k] + after);
    RemoveKeyAppend(s[..p], [k] + after, k);
    RemoveKeyAppend([k], after, k);
    assert RemoveKey([k], k) == [] by {
      assert [k][1..] == [];
    }
  }

  /** In a sequence without duplicates the key at position `p` occurs nowhere else. */
  lemma {:induction false} RemoveDistinctAt(s: seq<string>, k: string, p: nat)
    requires Distinct(s) && p < |s| && s[p] == k
    ensures RemoveKey(s, k) == s[..p] + s[p + 1..]
  {
    var before, after := s[..p], s[p + 1..];
    forall i | 0 <= i < |before| ensures before[i] != k { assert before[i] == s[i]; }
    forall i | 0 <= i < |after| ensures after[i] != k { assert after[i] == s[p + 1 + i]; }
    RemoveKeyAt(s, k, p);
  }

  /** `delete d[k]`: the key at its position is cut out; nothing changes when `k` is absent. */
  function Remove<V>(d: OMap<V>, k: string): (r: OMap<V>)
    requires d.Valid()
    ensures r.Valid()
    ensures r.values == d.values - {k}
    ensures forall p :: 0 <= p < |d.keys| && d.keys[p] == k ==> r.keys == d.keys[..p] + d.keys[p + 1..]
    ensures k !in d.keys ==> r == d
  {
    RemoveKeyDistinct(d.keys, k);
    forall p | 0 <= p < |d.keys| && d.keys[p] == k ensures RemoveKey(d.keys, k) == d.keys[..p] + d.keys[p + 1..] {
      RemoveDistinctAt(d.keys, k, p);
    }
    OMap(RemoveKey(d.keys, k), d.values - {k})
  }
}
