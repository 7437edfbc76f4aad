/** Sequence helpers shared by the benchmark and gallery models. */
module Seqs {

  /** Concatenation of a sequence of sequences, in order. */
  function Flatten<T>(xss: seq<seq<T>>): seq<T>
    decreases |xss|
  {
    if |xss| == 0 then [] else xss[0] + Flatten(xss[1..])
  }

  lemma {:induction false} FlattenAppend<T>(a: seq<seq<T>>, b: seq<seq<T>>)
    ensures Flatten(a + b) == Flatten(a) + Flatten(b)
    decreases |a|
  {
    if |a| > 0 {
      assert (a + b)[1..] == a[1..] + b;
      FlattenAppend(a[1..], b);
    } else {
      assert a + b == b;
    }
  }

  /** `f(x)` for each `x` of `xs` in turn, concatenated. */
  function ConcatMap<T, U>(xs: seq<T>, f: T -> seq<U>): seq<U>
    decreases |xs|
  {
    if |xs| == 0 then [] else f(xs[0]) + ConcatMap(xs[1..], f)
  }

  lemma {:induction false} ConcatMapAppend<T, U>(a: seq<T>, b: seq<T>, f: T -> seq<U>)
    ensures ConcatMap(a + b, f) == ConcatMap(a, f) + ConcatMap(b, f)
    decreases |a|
  {
    if |a| > 0 {
      assert (a + b)[0] == a[0];
      assert (a + b)[1..] == a[1..] + b;
      ConcatMapAppend(a[1..], b, f);
      assert f(a[0]) + (ConcatMap(a[1..], f) + ConcatMap(b, f))
             == (f(a[0]) + ConcatMap(a[1..], f)) + ConcatMap(b, f);
    } else {
      assert a + b == b;
    }
  }

  /** No element occurs twice. */
  predicate Distinct<T(==)>(s: seq<T>) {
    forall i, j :: 0 <= i < j < |s| ==> s[i] != s[j]
  }

  lemma DistinctCons<T>(s: seq<T>)
    requires |s| > 0 && Distinct(s)
    ensures Distinct(s[1..]) && s[0] !in s[1..]
  {
    forall i | 0 <= i < |s| - 1
      ensures s[1..][i] == s[i + 1]
    {
    }
  }

  /** The elements of `s` in order of first occurrence, each once. */
  function Dedup<T(==, !new)>(s: seq<T>): (d: seq<T>)
    ensures Distinct(d)
    ensures forall x :: x in d <==> x in s
    decreases |s|
  {
    if |s| == 0 then []
    else
      var d := Dedup(s[..|s| - 1]);
      assert forall x :: x in s <==> x in s[..|s| - 1] || x == s[|s| - 1] by {
        assert s == s[..|s| - 1] + [s[|s| - 1]];
      }
      if s[|s| - 1] in d then d else d + [s[|s| - 1]]
  }

  function Sum(xs: seq<real>): real
    decreases |xs|
  {
    if |xs| == 0 then 0.0 else xs[0] + Sum(xs[1..])
  }

  lemma {:induction false} SumAppend(a: seq<real>, b: seq<real>)
    ensures Sum(a + b) == Sum(a) + Sum(b)
    decreases |a|
  {
    if |a| > 0 {
      assert (a + b)[1..] == a[1..] + b;
      SumAppend(a[1..], b);
    } else {
      assert a + b == b;
    }
  }

  /** Arithmetic mean of a non-empty sequence. */
  function Mean(xs: seq<real>): real
    requires |xs| > 0
  {
    Sum(xs) / (|xs| as real)
  }

  /** Reordering does not change a sum. */
  lemma {:induction false} SumPermutation(a: seq<real>, b: seq<real>)
    requires multiset(a) == multiset(b)
    ensures Sum(a) == Sum(b)
    decreases |a|
  {
    if |a| == 0 {
      assert |b| == |multiset(b)| == 0;
    } else {
      assert a[0] in multiset(b);
      var j :| 0 <= j < |b| && b[j] == a[0];
      var others := b[..j] + b[j + 1..];
      RemoveAtMultiset(b, j);
      RemoveAtSum(b, j);
      MultisetCons(a);
      assert multiset(a[1..]) == multiset(a) - multiset{a[0]};
      SumPermutation(a[1..], others);
    }
  }

  /** Same counts, hence the same length, sum and mean. */
  lemma SameCountsSameStats<K>(a: seq<real>, b: seq<real>, z: multiset<(K, real)>, k: K)
    requires |a| > 0
    requires forall v :: multiset(a)[v] == z[(k, v)]
    requires forall v :: multiset(b)[v] == z[(k, v)]
    ensures |b| == |a| && Sum(b) == Sum(a) && Mean(b) == Mean(a)
  {
    forall v
      ensures multiset(a)[v] == multiset(b)[v]
    {
    }
    assert multiset(a) == multiset(b);
    MeanPermutation(a, b);
    SumPermutation(a, b);
  }

  /** Reordering changes neither the length nor the mean. */
  lemma MeanPermutation(a: seq<real>, b: seq<real>)
    requires |a| > 0 && multiset(a) == multiset(b)
    ensures |b| == |a| && Mean(a) == Mean(b)
  {
    assert |a| == |multiset(a)| == |multiset(b)| == |b|;
    SumPermutation(a, b);
  }

  /** Taking out position `j` removes one copy of `s[j]`. */
  lemma RemoveAtMultiset<T>(s: seq<T>, j: int)
    requires 0 <= j < |s|
    ensures multiset(s[..j] + s[j + 1..]) == multiset(s) - multiset{s[j]}
  {
    var before, after := s[..j], s[j + 1..];
    assert s == before + ([s[j]] + after);
    assert multiset(s) == multiset(before) + (multiset{s[j]} + multiset(after));
  }

  /** Taking out position `j` takes `s[j]` off the sum. */
  lemma RemoveAtSum(s: seq<real>, j: int)
    requires 0 <= j < |s|
    ensures Sum(s) == s[j] + Sum(s[..j] + s[j + 1..])
  {
    var before, from, after := s[..j], s[j..], s[j + 1..];
    assert s == before + from;
    SumAppend(before, from);
    assert from[1..] == after;
    assert Sum(from) == s[j] + Sum(after);
    SumAppend(before, after);
  }

  // ----- Group-by over parallel key and value sequences -----

  /** How many times `x` occurs in `s`. */
  function Count<T(==)>(s: seq<T>, x: T): (n: nat)
    ensures n <= |s|
    ensures n > 0 <==> x in s
    decreases |s|
  {
    if |s| == 0 then 0
    else
      assert s == [s[0]] + s[1..];
      (if s[0] == x then 1 else 0) + Count(s[1..], x)
  }

  /** The values whose key is `k`, in their original order: one group of a group-by. */
  function Select<K(==), V>(keys: seq<K>, vals: seq<V>, k: K): (r: seq<V>)
    requires |keys| == |vals|
    ensures |r| == Count(keys, k)
    decreases |keys|
  {
    if |keys| == 0 then []
    else (if keys[0] == k then [vals[0]] else []) + Select(keys[1..], vals[1..], k)
  }

  /** A value is in the group of `k` exactly when some position carries key `k` and that value. */
  lemma {:induction false} SelectMembers<K, V>(keys: seq<K>, vals: seq<V>, k: K)
    requires |keys| == |vals|
    ensures forall v :: v in Select(keys, vals, k) <==> exists i :: 0 <= i < |keys| && keys[i] == k && vals[i] == v
    decreases |keys|
  {
    if |keys| > 0 {
      SelectMembers(keys[1..], vals[1..], k);
      var head: seq<V> := if keys[0] == k then [vals[0]] else [];
      assert Select(keys, vals, k) == head + Select(keys[1..], vals[1..], k);
      forall v
        ensures v in Select(keys, vals, k) <==> exists i :: 0 <= i < |keys| && keys[i] == k && vals[i] == v
      {
        if v in Select(keys, vals, k) {
          if v in head {
            assert keys[0] == k && vals[0] == v;
          } else {
            var i :| 0 <= i < |keys| - 1 && keys[1..][i] == k && vals[1..][i] == v;
            assert keys[i + 1] == k && vals[i + 1] == v;
          }
        }
        if exists i :: 0 <= i < |keys| && keys[i] == k && vals[i] == v {
          var i :| 0 <= i < |keys| && keys[i] == k && vals[i] == v;
          if i > 0 {
            assert keys[1..][i - 1] == k && vals[1..][i - 1] == v;
          }
        }
      }
    }
  }

  /** The key and value at each position, paired. */
  function Zip<K, V>(keys: seq<K>, vals: seq<V>): (z: seq<(K, V)>)
    requires |keys| == |vals|
    ensures |z| == |keys|
    ensures forall i :: 0 <= i < |keys| ==> z[i] == (keys[i], vals[i])
  {
    seq(|keys|, i requires 0 <= i < |keys| => (keys[i], vals[i]))
  }

  lemma ZipCons<K, V>(keys: seq<K>, vals: seq<V>)
    requires |keys| == |vals| && |keys| > 0
    ensures Zip(keys, vals) == [(keys[0], vals[0])] + Zip(keys[1..], vals[1..])
  {
  }

  /**
   The group of `k` holds each value `v` exactly as many times as some
   position carries key `k` with value `v`.
   */
  lemma {:induction false} SelectMultiplicity<K, V>(keys: seq<K>, vals: seq<V>, k: K)
    requires |keys| == |vals|
    ensures forall v :: multiset(Select(keys, vals, k))[v] == multiset(Zip(keys, vals))[(k, v)]
    decreases |keys|
  {
    if |keys| == 0 {
      assert Zip(keys, vals) == [];
    } else {
      var head: seq<V> := if keys[0] == k then [vals[0]] else [];
      SelectMultiplicity(keys[1..], vals[1..], k);
      SelectCons(keys, vals, k);
      ZipCons(keys, vals);
      forall v
        ensures multiset(Select(keys, vals, k))[v] == multiset(Zip(keys, vals))[(k, v)]
      {
        assert multiset(Select(keys, vals, k))[v]
               == multiset(head)[v] + multiset(Select(keys[1..], vals[1..], k))[v];
        assert multiset(Zip(keys, vals))[(k, v)]
               == multiset([(keys[0], vals[0])])[(k, v)] + multiset(Zip(keys[1..], vals[1..]))[(k, v)];
      }
    }
  }

  /** The groups of the keys `ks`, concatenated in the order of `ks`. */
  function SelectAll<K(==), V>(keys: seq<K>, vals: seq<V>, ks: seq<K>): seq<V>
    requires |keys| == |vals|
    decreases |ks|
  {
    if |ks| == 0 then [] else Select(keys, vals, ks[0]) + SelectAll(keys, vals, ks[1..])
  }

  lemma {:induction false} SelectAllEmpty<K, V>(keys: seq<K>, vals: seq<V>, ks: seq<K>)
    requires |keys| == |vals| == 0
    ensures SelectAll(keys, vals, ks) == []
    decreases |ks|
  {
    if |ks| > 0 {
      SelectAllEmpty(keys, vals, ks[1..]);
    }
  }

  /** The first value lands in the group of its key: at the head of `ks` or later, never both. */
  lemma OwnGroup<K, V>(k: K, ks: seq<K>, v: V, own: seq<V>)
    requires |ks| > 0 && ks[0] !in ks[1..]
    requires own == (if k == ks[0] then [v] else [])
    ensures (if k in ks then multiset{v} else multiset{})
            == multiset(own) + (if k in ks[1..] then multiset{v} else multiset{})
  {
    assert ks == [ks[0]] + ks[1..];
  }

  lemma Regroup<T>(own: seq<T>, later: seq<T>, rest: seq<T>, restLater: seq<T>, moved: multiset<T>)
    requires multiset(rest) == moved + multiset(restLater)
    ensures multiset(own + later) + multiset(rest) == (multiset(own) + moved) + (multiset(later) + multiset(restLater))
  {
  }

  /** Taking off the first position: its value goes to one group if its key is listed, else to none. */
  lemma {:induction false} SelectAllStep<K, V>(keys: seq<K>, vals: seq<V>, ks: seq<K>)
    requires |keys| == |vals| && |keys| > 0 && Distinct(ks)
    ensures multiset(SelectAll(keys, vals, ks))
            == (if keys[0] in ks then multiset{vals[0]} else multiset{})
               + multiset(SelectAll(keys[1..], vals[1..], ks))
    decreases |ks|
  {
    if |ks| > 0 {
      var own: seq<V> := if keys[0] == ks[0] then [vals[0]] else [];
      var later := Select(keys[1..], vals[1..], ks[0]);
      var rest := SelectAll(keys, vals, ks[1..]);
      var restLater := SelectAll(keys[1..], vals[1..], ks[1..]);
      SelectCons(keys, vals, ks[0]);
      SelectAllCons(keys, vals, ks);
      SelectAllCons(keys[1..], vals[1..], ks);
      DistinctCons(ks);
      SelectAllStep(keys, vals, ks[1..]);
      OwnGroup(keys[0], ks, vals[0], own);
      var moved := if keys[0] in ks[1..] then multiset{vals[0]} else multiset{};
      Regroup(own, later, rest, restLater, moved);
    }
  }

  lemma SelectCons<K, V>(keys: seq<K>, vals: seq<V>, k: K)
    requires |keys| == |vals| && |keys| > 0
    ensures Select(keys, vals, k) == (if keys[0] == k then [vals[0]] else []) + Select(keys[1..], vals[1..], k)
  {
  }

  lemma SelectAllCons<K, V>(keys: seq<K>, vals: seq<V>, ks: seq<K>)
    requires |keys| == |vals| && |ks| > 0
    ensures multiset(SelectAll(keys, vals, ks))
            == multiset(Select(keys, vals, ks[0])) + multiset(SelectAll(keys, vals, ks[1..]))
  {
  }

  /**
   Grouping partitions the values: when the listed keys are distinct and
   cover every key, the groups together hold each value exactly once.
   */
  lemma {:induction false} SelectAllCovers<K, V>(keys: seq<K>, vals: seq<V>, ks: seq<K>)
    requires |keys| == |vals| && Distinct(ks)
    requires forall k :: k in keys ==> k in ks
    ensures multiset(SelectAll(keys, vals, ks)) == multiset(vals)
    decreases |keys|
  {
    if |keys| == 0 {
      SelectAllEmpty(keys, vals, ks);
    } else {
      CoveredTail(keys, ks);
      SelectAllStep(keys, vals, ks);
      SelectAllCovers(keys[1..], vals[1..], ks);
      MultisetCons(vals);
    }
  }

  lemma CoveredTail<K>(keys: seq<K>, ks: seq<K>)
    requires |keys| > 0
    requires forall k :: k in keys ==> k in ks
    ensures keys[0] in ks
    ensures forall k :: k in keys[1..] ==> k in ks
  {
    assert keys[0] in keys;
    forall k | k in keys[1..]
      ensures k in ks
    {
      assert k in keys;
    }
  }

  lemma MultisetCons<T>(s: seq<T>)
    requires |s| > 0
    ensures multiset(s) == multiset{s[0]} + multiset(s[1..])
  {
    assert s == [s[0]] + s[1..];
  }
}

