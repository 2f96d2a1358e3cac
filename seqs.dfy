/** The array operations the selection lists are built from: `filter`, sums and id sets. */
module Seqs {

  /** `r` is `s` with some elements left out, the rest in their original order. */
  predicate IsSubsequence<T(==)>(r: seq<T>, s: seq<T>)
    decreases |s|
  {
    r == [] || (s != [] && ((r[0] == s[0] && IsSubsequence(r[1..], s[1..])) || IsSubsequence(r, s[1..])))
  }

  /** `s.filter(keep)`: the elements that satisfy `keep`, in their original order. */
  function Filter<T(==, !new)>(s: seq<T>, keep: T -> bool): (r: seq<T>)
    ensures |r| <= |s|
    ensures forall x :: x in r <==> x in s && keep(x)
    ensures IsSubsequence(r, s)
    ensures forall x :: multiset(r)[x] == if keep(x) then multiset(s)[x] else 0
  {
    if s == [] then []
    else
      assert s == [s[0]] + s[1..];
      if keep(s[0]) then
        var tail := Filter(s[1..], keep);
        assert ([s[0]] + tail)[1..] == tail;
        [s[0]] + tail
      else Filter(s[1..], keep)
  }

  /** Filtering with a predicate every element satisfies gives back the sequence. */
  lemma {:induction false} FilterKeepsAll<T(!new)>(s: seq<T>, keep: T -> bool)
    requires forall x :: x in s ==> keep(x)
    ensures Filter(s, keep) == s
  {
    if s != [] {
      FilterKeepsAll(s[1..], keep);
    }
  }

  /** Filtering distributes over concatenation. */
  lemma {:induction false} FilterAppend<T(!new)>(a: seq<T>, b: seq<T>, keep: T -> bool)
    ensures Filter(a + b, keep) == Filter(a, keep) + Filter(b, keep)
  {
    if a == [] {
      assert a + b == b;
    } else {
      assert (a + b)[1..] == a[1..] + b;
      FilterAppend(a[1..], b, keep);
    }
  }

  /** The set of keys (ids) of the elements of `s`. */
  function Keys<T(==), K(==)>(s: seq<T>, key: T -> K): set<K>
  {
    set x | x in s :: key(x)
  }

  /** No two positions of `s` carry the same key. */
  predicate KeysDistinct<T, K(==)>(s: seq<T>, key: T -> K)
  {
    forall i, j :: 0 <= i < j < |s| ==> key(s[i]) != key(s[j])
  }

  /** Appending an element whose key is new keeps the keys distinct. */
  lemma AppendFreshKey<T, K>(s: seq<T>, x: T, key: T -> K)
    requires KeysDistinct(s, key)
    requires key(x) !in Keys(s, key)
    ensures KeysDistinct(s + [x], key)
  {
    var t := s + [x];
    forall i, j | 0 <= i < j < |t|
      ensures key(t[i]) != key(t[j])
    {
      if j == |s| {
        assert t[i] == s[i] && s[i] in s;
      }
    }
  }

  /** Filtering keeps the keys distinct. */
  lemma {:induction false} FilterKeepsKeysDistinct<T(!new), K>(s: seq<T>, keep: T -> bool, key: T -> K)
    requires KeysDistinct(s, key)
    ensures KeysDistinct(Filter(s, keep), key)
  {
    if s != [] {
      var tail := s[1..];
      assert KeysDistinct(tail, key) by {
        forall i, j | 0 <= i < j < |tail| ensures key(tail[i]) != key(tail[j]) {
          assert tail[i] == s[i + 1] && tail[j] == s[j + 1];
        }
      }
      FilterKeepsKeysDistinct(tail, keep, key);
      if keep(s[0]) {
        var r := Filter(s, keep);
        var ft := Filter(tail, keep);
        assert r == [s[0]] + ft;
        forall i, j | 0 <= i < j < |r| ensures key(r[i]) != key(r[j]) {
          if i == 0 {
            assert r[j] == ft[j - 1] && ft[j - 1] in ft;
            assert r[j] in tail;
            var m :| 0 <= m < |tail| && tail[m] == r[j];
            assert s[m + 1] == r[j];
          } else {
            assert r[i] == ft[i - 1] && r[j] == ft[j - 1];
          }
        }
      }
    }
  }

  /** The elements whose key is not `k`, in their original order. */
  function RemoveKey<T(==, !new), K(==)>(s: seq<T>, key: T -> K, k: K): (r: seq<T>)
    ensures IsSubsequence(r, s)
    ensures forall x :: x in r <==> x in s && key(x) != k
    ensures forall x :: multiset(r)[x] == if key(x) != k then multiset(s)[x] else 0
    ensures k !in Keys(r, key)
    ensures k !in Keys(s, key) ==> r == s
    ensures KeysDistinct(s, key) ==> KeysDistinct(r, key)
  {
    var keep := (x: T) => key(x) != k;
    assert KeysDistinct(s, key) ==> KeysDistinct(Filter(s, keep), key) by {
      if KeysDistinct(s, key) { FilterKeepsKeysDistinct(s, keep, key); }
    }
    assert k !in Keys(s, key) ==> Filter(s, keep) == s by {
      if k !in Keys(s, key) { FilterKeepsAll(s, keep); }
    }
    Filter(s, keep)
  }

  /** With distinct keys, removing the key at position `i` drops exactly that one element. */
  lemma RemoveKeyAt<T(!new), K>(s: seq<T>, key: T -> K, i: nat)
    requires KeysDistinct(s, key)
    requires i < |s|
    ensures RemoveKey(s, key, key(s[i])) == s[..i] + s[i + 1..]
  {
    var k := key(s[i]);
    var keep := (x: T) => key(x) != k;
    assert s == s[..i] + ([s[i]] + s[i + 1..]);
    FilterAppend(s[..i], [s[i]] + s[i + 1..], keep);
    FilterAppend([s[i]], s[i + 1..], keep);
    forall x | x in s[..i] ensures keep(x) {
      var m :| 0 <= m < i && s[m] == x;
    }
    forall x | x in s[i + 1..] ensures keep(x) {
      var m :| i < m < |s| && s[m] == x;
    }
    FilterKeepsAll(s[..i], keep);
    FilterKeepsAll(s[i + 1..], keep);
    assert Filter([s[i]], keep) == [];
  }

  /** The sum of `f` over the elements of `s`, added up from the front (`forEach` with `+=`). */
  function Sum<T>(s: seq<T>, f: T -> real): real
  {
    if s == [] then 0.0 else Sum(s[..|s| - 1], f) + f(s[|s| - 1])
  }

  /** One more step of the running total: the prefix of length `k + 1`. */
  lemma SumStep<T>(s: seq<T>, k: nat, f: T -> real)
    requires k < |s|
    ensures Sum(s[..k + 1], f) == Sum(s[..k], f) + f(s[k])
  {
    assert s[..k + 1][..k] == s[..k];
  }

  /** The sum over a concatenation is the sum of the sums. */
  lemma {:induction false} SumAppend<T>(a: seq<T>, b: seq<T>, f: T -> real)
    ensures Sum(a + b, f) == Sum(a, f) + Sum(b, f)
  {
    if b == [] {
      assert a + b == a;
    } else {
      var b' := b[..|b| - 1];
      assert (a + b)[..|a + b| - 1] == a + b';
      SumAppend(a, b', f);
    }
  }

  /** Cutting out the element at `j` removes one occurrence of it. */
  lemma MultisetRemoveAt<T>(s: seq<T>, j: nat)
    requires j < |s|
    ensures multiset(s[..j] + s[j + 1..]) == multiset(s) - multiset{s[j]}
  {
    assert s == s[..j] + [s[j]] + s[j + 1..];
  }

  /** The sum does not depend on the order of the elements. */
  lemma {:induction false} SumPermutation<T>(a: seq<T>, b: seq<T>, f: T -> real)
    requires multiset(a) == multiset(b)
    ensures Sum(a, f) == Sum(b, f)
    decreases |a|
  {
    if a == [] {
      assert |b| == |multiset(b)| == 0;
    } else {
      var x := a[|a| - 1];
      var a' := a[..|a| - 1];
      assert a' == a[..|a| - 1] + a[|a|..];
      MultisetRemoveAt(a, |a| - 1);
      assert x in multiset(b);
      var j :| 0 <= j < |b| && b[j] == x;
      var b' := b[..j] + b[j + 1..];
      MultisetRemoveAt(b, j);
      SumPermutation(a', b', f);
      SumRemove(b, j, f);
    }
  }

  /** The sum of a one-element sequence is that element's contribution. */
  lemma SumSingleton<T>(x: T, f: T -> real)
    ensures Sum([x], f) == f(x)
  {
    assert [x][..0] == [];
  }

  /** The sum splits around the element at `k`. */
  lemma {:induction false} SumAround<T>(p: seq<T>, x: T, q: seq<T>, f: T -> real)
    ensures Sum(p + [x] + q, f) == Sum(p, f) + f(x) + Sum(q, f)
  {
    SumAppend(p + [x], q, f);
    SumAppend(p, [x], f);
    SumSingleton(x, f);
  }

  /** Replacing one element changes the sum by the difference of the two contributions. */
  lemma {:induction false} SumUpdate<T>(s: seq<T>, k: nat, x: T, f: T -> real)
    requires k < |s|
    ensures Sum(s[k := x], f) == Sum(s, f) - f(s[k]) + f(x)
  {
    var p, q := s[..k], s[k + 1..];
    assert s == p + [s[k]] + q;
    assert s[k := x] == p + [x] + q;
    SumAround(p, s[k], q, f);
    SumAround(p, x, q, f);
  }

  /** Removing the element at `k` lowers the sum by its contribution. */
  lemma {:induction false} SumRemove<T>(s: seq<T>, k: nat, f: T -> real)
    requires k < |s|
    ensures Sum(s[..k] + s[k + 1..], f) == Sum(s, f) - f(s[k])
  {
    var p, q := s[..k], s[k + 1..];
    assert s == p + [s[k]] + q;
    SumAround(p, s[k], q, f);
    SumAppend(p, q, f);
  }

  /** A sum of non-negative contributions is non-negative. */
  lemma {:induction false} SumNonNegative<T>(s: seq<T>, f: T -> real)
    requires forall x :: x in s ==> f(x) >= 0.0
    ensures Sum(s, f) >= 0.0
  {
    if s != [] {
      assert forall x :: x in s[..|s| - 1] ==> x in s;
      SumNonNegative(s[..|s| - 1], f);
    }
  }
}
