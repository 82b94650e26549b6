/**
 * Python's `dict`: a map that remembers the order in which keys were first
 * inserted. Assigning to a key already present keeps its place; `pop`
 * removes it.
 */
module OrderedDict {
  datatype ODict<K(==,!new), V> = ODict(keys: seq<K>, values: map<K, V>) {
    /** Every key is listed once, and the listed keys are the keys of the map. */
    ghost predicate Valid() {
      Distinct(keys)
      && (forall k :: k in values <==> k in keys)
    }

    /** `d[k] = v` */
    function Put(k: K, v: V): (d: ODict<K, V>)
      ensures Valid() ==> d.Valid()
      ensures d.values == values[k := v]
      ensures k in values ==> d.keys == keys
      ensures k !in values ==> d.keys == keys + [k]
    {
      if k in values then ODict(keys, values[k := v]) else ODict(keys + [k], values[k := v])
    }

    /** `d.pop(k, None)`: without `k`, the other keys in their order. */
    function Remove(k: K): (d: ODict<K, V>)
      requires Valid()
      ensures d.Valid()
      ensures d.values == values - {k}
      ensures d.keys == Without(keys, k)
    {
      WithoutMembers(keys, k);
      WithoutDistinct(keys, k);
      ODict(Without(keys, k), values - {k})
    }
  }

  function Empty<K(==,!new), V>(): (d: ODict<K, V>)
    ensures d.Valid() && d.keys == [] && d.values == map[]
  {
    ODict([], map[])
  }

  /** `keys` without `k`. */
  function Without<K(==)>(keys: seq<K>, k: K): seq<K> {
    if keys == [] then []
    else (if keys[0] == k then [] else [keys[0]]) + Without(keys[1..], k)
  }

  lemma {:induction false} WithoutMembers<K>(keys: seq<K>, k: K)
    ensures forall x :: x in Without(keys, k) <==> x in keys && x != k
  {
    if keys != [] {
      WithoutMembers(keys[1..], k);
      assert keys == [keys[0]] + keys[1..];
    }
  }

  /** No element occurs twice. */
  ghost predicate Distinct<K>(s: seq<K>) {
    forall i, j | 0 <= i < j < |s| :: s[i] != s[j]
  }

  lemma DistinctCons<K>(x: K, s: seq<K>)
    ensures Distinct([x] + s) <==> x !in s && Distinct(s)
  {
    var t := [x] + s;
    if x !in s && Distinct(s) {
      forall i, j | 0 <= i < j < |t| ensures t[i] != t[j] {
        assert t[j] == s[j - 1];
        if i > 0 {
          assert t[i] == s[i - 1];
        }
      }
    }
    if Distinct(t) {
      forall i, j | 0 <= i < j < |s| ensures s[i] != s[j] {
        assert s[i] == t[i + 1] && s[j] == t[j + 1];
      }
      forall j | 0 <= j < |s| ensures s[j] != x {
        assert s[j] == t[j + 1] && x == t[0] && 0 < j + 1;
      }
    }
  }

  lemma {:induction false} WithoutDistinct<K>(keys: seq<K>, k: K)
    requires Distinct(keys)
    ensures Distinct(Without(keys, k))
  {
    if keys != [] {
      assert keys == [keys[0]] + keys[1..];
      DistinctCons(keys[0], keys[1..]);
      WithoutDistinct(keys[1..], k);
      WithoutMembers(keys[1..], k);
      if keys[0] != k {
        DistinctCons(keys[0], Without(keys[1..], k));
      }
    }
  }

  /** Removing a key that is not there changes nothing. */
  lemma {:induction false} WithoutAbsent<K>(keys: seq<K>, k: K)
    requires k !in keys
    ensures Without(keys, k) == keys
  {
    if keys != [] {
      WithoutAbsent(keys[1..], k);
      assert keys == [keys[0]] + keys[1..];
    }
  }

  /** Removing a key listed once takes out exactly that entry. */
  lemma {:induction false} WithoutSplit<K>(a: seq<K>, k: K, b: seq<K>)
    requires k !in a && k !in b
    ensures Without(a + [k] + b, k) == a + b
  {
    if a == [] {
      assert [k] + b == [k] + b;
      assert ([k] + b)[1..] == b;
      WithoutAbsent(b, k);
    } else {
      assert (a + [k] + b)[1..] == a[1..] + [k] + b;
      WithoutSplit(a[1..], k, b);
      assert a + b == [a[0]] + (a[1..] + b);
    }
  }
}
