/** Value-level stand-ins for the Python containers the pipeline uses:
    an Option type, and ordered dictionaries (Python 3.7+ dicts keep
    insertion order, and several loops of the pipeline depend on it). */
module Collections {

  datatype Option<T> = None | Some(value: T)

  /** A Python dict as its items in insertion order; keys are pairwise distinct. */
  type Dict<K, V> = seq<(K, V)>

  predicate Distinct<T(==)>(s: seq<T>) {
    forall i, j :: 0 <= i < j < |s| ==> s[i] != s[j]
  }

  /** Two duplicate-free sequences with no element in common concatenate to
      a duplicate-free sequence. */
  lemma DistinctConcat<T>(a: seq<T>, b: seq<T>)
    requires Distinct(a) && Distinct(b)
    requires forall i, j :: 0 <= i < |a| && 0 <= j < |b| ==> a[i] != b[j]
    ensures Distinct(a + b)
  {
    forall i, j | 0 <= i < j < |a + b| ensures (a + b)[i] != (a + b)[j] {
      if j >= |a| {
        assert (a + b)[j] == b[j - |a|];
        if i >= |a| {
          assert (a + b)[i] == b[i - |a|];
        }
      }
    }
  }

  function Keys<K, V>(d: Dict<K, V>): (ks: seq<K>)
    ensures |ks| == |d|
    ensures forall i :: 0 <= i < |d| ==> ks[i] == d[i].0
  {
    seq(|d|, i requires 0 <= i < |d| => d[i].0)
  }

  function Values<K, V>(d: Dict<K, V>): (vs: seq<V>)
    ensures |vs| == |d|
    ensures forall i :: 0 <= i < |d| ==> vs[i] == d[i].1
  {
    seq(|d|, i requires 0 <= i < |d| => d[i].1)
  }

  /** The dict built from parallel key and value lists. */
  function Zip<K, V>(ks: seq<K>, vs: seq<V>): (d: Dict<K, V>)
    requires |ks| == |vs|
    ensures |d| == |ks|
    ensures forall i :: 0 <= i < |d| ==> d[i] == (ks[i], vs[i])
    ensures Keys(d) == ks && Values(d) == vs
  {
    seq(|ks|, i requires 0 <= i < |ks| => (ks[i], vs[i]))
  }

  lemma KeysCons<K, V>(d: Dict<K, V>)
    requires d != []
    ensures Keys(d) == [d[0].0] + Keys(d[1..])
  {
  }

  predicate IsDict<K(==), V>(d: Dict<K, V>) {
    Distinct(Keys(d))
  }

  predicate HasKey<K(==), V>(d: Dict<K, V>, k: K) {
    k in Keys(d)
  }

  /** `d.get(k)`: the value of the first item with key k. */
  function Get<K(==), V>(d: Dict<K, V>, k: K): (r: Option<V>)
    ensures r.None? <==> !HasKey(d, k)
  {
    if d == [] then None
    else if d[0].0 == k then Some(d[0].1)
    else (assert Keys(d) == [d[0].0] + Keys(d[1..]); Get(d[1..], k))
  }

  /** A lookup checks the first item, then the rest. */
  lemma GetCons<K, V>(d: Dict<K, V>, k: K)
    requires d != []
    ensures d[0].0 == k ==> Get(d, k) == Some(d[0].1)
    ensures d[0].0 != k ==> Get(d, k) == Get(d[1..], k)
  {
  }

  /** In a dict, the item at position i is what a lookup of its key finds. */
  lemma {:induction false} GetAt<K, V>(d: Dict<K, V>, i: nat)
    requires IsDict(d) && i < |d|
    ensures Get(d, d[i].0) == Some(d[i].1)
  {
    if i > 0 {
      assert Keys(d)[0] != Keys(d)[i];
      assert Keys(d[1..]) == Keys(d)[1..];
      GetAt(d[1..], i - 1);
    }
  }

  /** Dropping the last item of a dict changes no lookup of another key. */
  lemma GetDropLast<K, V>(d: Dict<K, V>, q: K)
    requires IsDict(d) && d != [] && q != d[|d| - 1].0
    ensures Get(d, q) == Get(d[..|d| - 1], q)
    ensures IsDict(d[..|d| - 1])
  {
    DropLastIsDict(d);
    var ks := Keys(d);
    if q in ks {
      var i := IndexIn(ks, q);
      assert i != |d| - 1;
      GetAt(d, i);
      GetAt(d[..|d| - 1], i);
    }
  }

  lemma DropLastIsDict<K, V>(d: Dict<K, V>)
    requires IsDict(d) && d != []
    ensures Keys(d[..|d| - 1]) == Keys(d)[..|d| - 1]
    ensures IsDict(d[..|d| - 1])
  {
    var ks, kis := Keys(d), Keys(d[..|d| - 1]);
    assert kis == ks[..|d| - 1];
    forall i, j | 0 <= i < j < |kis| ensures kis[i] != kis[j] {
      assert kis[i] == ks[i] && kis[j] == ks[j];
    }
  }

  /** The last key of a dict does not occur before it. */
  lemma LastKeyIsNew<K, V>(d: Dict<K, V>)
    requires IsDict(d) && d != []
    ensures !HasKey(d[..|d| - 1], d[|d| - 1].0)
    ensures Get(d, d[|d| - 1].0) == Some(d[|d| - 1].1)
  {
    assert Keys(d[..|d| - 1]) == Keys(d)[..|d| - 1];
    GetAt(d, |d| - 1);
  }

  /** `d[k] = v`: an existing key keeps its position and takes the new value;
      a new key is appended at the end. */
  function Put<K(==), V>(d: Dict<K, V>, k: K, v: V): (r: Dict<K, V>)
    ensures |r| == if HasKey(d, k) then |d| else |d| + 1
    ensures !HasKey(d, k) ==> r[|d|] == (k, v)
    ensures forall i :: 0 <= i < |d| ==> r[i] == (if d[i].0 == k then (k, v) else d[i])
  {
    if HasKey(d, k) then seq(|d|, i requires 0 <= i < |d| => if d[i].0 == k then (k, v) else d[i])
    else d + [(k, v)]
  }

  lemma PutKeys<K, V>(d: Dict<K, V>, k: K, v: V)
    ensures Keys(Put(d, k, v)) == if HasKey(d, k) then Keys(d) else Keys(d) + [k]
  {
  }

  lemma PutKeeps<K, V>(d: Dict<K, V>, k: K, v: V)
    requires IsDict(d)
    ensures IsDict(Put(d, k, v))
    ensures Get(Put(d, k, v), k) == Some(v)
    ensures forall k' :: k' != k ==> Get(Put(d, k, v), k') == Get(d, k')
    ensures forall k' :: HasKey(Put(d, k, v), k') <==> HasKey(d, k') || k' == k
  {
    var r := Put(d, k, v);
    PutKeys(d, k, v);
    assert IsDict(r);
    var ik := if HasKey(d, k) then IndexIn(Keys(d), k) else |d|;
    assert r[ik] == (k, v);
    GetAt(r, ik);
    forall k' | k' != k ensures Get(r, k') == Get(d, k') {
      if HasKey(d, k') {
        var i := IndexIn(Keys(d), k');
        GetAt(d, i);
        GetAt(r, i);
      }
    }
  }

  function IndexIn<T(==)>(s: seq<T>, x: T): (i: nat)
    requires x in s
    ensures i < |s| && s[i] == x
  {
    if s[0] == x then 0 else 1 + IndexIn(s[1..], x)
  }

  /** Position of the last occurrence of x in s (x must occur). */
  function LastIndex<T(==)>(s: seq<T>, x: T): (i: nat)
    requires x in s
    ensures i < |s| && s[i] == x
    ensures forall j :: i < j < |s| ==> s[j] != x
  {
    if s[|s| - 1] == x then |s| - 1 else LastIndex(s[..|s| - 1], x)
  }

  /** The state of a map after `m[s[i]] = i` for i = 0, 1, ... in order,
      the loop body of `tmp = 0; for p in s: m[p] = tmp; tmp += 1`. */
  function Enumerate<T>(m: map<T, int>, s: seq<T>): map<T, int>
  {
    if s == [] then m else Enumerate(m, s[..|s| - 1])[s[|s| - 1] := |s| - 1]
  }

  /** Every name of s ends at its last position; every other key is untouched. */
  lemma {:induction false} EnumerateLastWins<T>(m: map<T, int>, s: seq<T>)
    ensures forall x :: x in s ==> x in Enumerate(m, s) && Enumerate(m, s)[x] == LastIndex(s, x)
    ensures forall x :: x !in s ==> (x in Enumerate(m, s) <==> x in m)
    ensures forall x :: x !in s && x in m ==> Enumerate(m, s)[x] == m[x]
  {
    if s != [] {
      var p := s[..|s| - 1];
      EnumerateLastWins(m, p);
      forall x | x in s ensures x in Enumerate(m, s) && Enumerate(m, s)[x] == LastIndex(s, x) {
        if x != s[|s| - 1] {
          assert x in p by {
            var i :| 0 <= i < |s| && s[i] == x;
            assert p[i] == x;
          }
        }
      }
    }
  }

  /** The state of a map after `for a, b in zip(values, keys): m[b] = a`;
      zip stops at the shorter sequence. */
  function ZipInto<T>(m: map<T, T>, values: seq<T>, keys: seq<T>): map<T, T>
  {
    var n := if |values| < |keys| then |values| else |keys|;
    if n == 0 then m
    else ZipInto(m, values[..n - 1], keys[..n - 1])[keys[n - 1] := values[n - 1]]
  }

  lemma {:induction false} ZipIntoLastWins<T>(m: map<T, T>, values: seq<T>, keys: seq<T>, n: nat)
    requires n <= |values| && n <= |keys|
    requires n == |values| || n == |keys|
    ensures forall k :: k in keys[..n] ==>
      k in ZipInto(m, values, keys) && ZipInto(m, values, keys)[k] == values[LastIndex(keys[..n], k)]
    ensures forall k :: k !in keys[..n] ==> (k in ZipInto(m, values, keys) <==> k in m)
    ensures forall k :: k !in keys[..n] && k in m ==> ZipInto(m, values, keys)[k] == m[k]
  {
    if n > 0 {
      var v, ks := values[..n - 1], keys[..n - 1];
      assert ks == keys[..n][..n - 1];
      ZipIntoLastWins(m, v, ks, n - 1);
      assert ks[..n - 1] == ks;
      forall k | k in keys[..n] && k != keys[n - 1] ensures k in ks {
        var i :| 0 <= i < n && keys[..n][i] == k;
        assert ks[i] == k;
      }
    }
  }

  /** Number of elements of s satisfying p. */
  function CountIf<T>(s: seq<T>, p: T -> bool): (n: nat)
    ensures n <= |s|
  {
    if s == [] then 0 else CountIf(s[..|s| - 1], p) + (if p(s[|s| - 1]) then 1 else 0)
  }

  /** Some element satisfies p exactly when the count is positive. */
  lemma {:induction false} CountIfPositive<T>(s: seq<T>, p: T -> bool)
    ensures CountIf(s, p) > 0 <==> exists x :: x in s && p(x)
  {
    if s != [] {
      var init := s[..|s| - 1];
      CountIfPositive(init, p);
      assert s == init + [s[|s| - 1]];
    }
  }

  /** The elements of s satisfying p, in order. */
  function Filter<T>(s: seq<T>, p: T -> bool): (r: seq<T>)
    ensures |r| == CountIf(s, p)
    ensures forall x :: x in r ==> x in s && p(x)
  {
    if s == [] then [] else Filter(s[..|s| - 1], p) + (if p(s[|s| - 1]) then [s[|s| - 1]] else [])
  }

  lemma {:induction false} FilterComplete<T>(s: seq<T>, p: T -> bool)
    ensures forall x :: x in s && p(x) ==> x in Filter(s, p)
  {
    if s != [] {
      FilterComplete(s[..|s| - 1], p);
      forall x | x in s && p(x) ensures x in Filter(s, p) {
        if x != s[|s| - 1] {
          var i :| 0 <= i < |s| && s[i] == x;
          assert s[..|s| - 1][i] == x;
        }
      }
    }
  }

  function Sum(s: seq<int>): int {
    if s == [] then 0 else Sum(s[..|s| - 1]) + s[|s| - 1]
  }

  function Reverse<T>(s: seq<T>): (r: seq<T>)
    ensures |r| == |s|
    ensures forall i :: 0 <= i < |s| ==> r[i] == s[|s| - 1 - i]
  {
    if s == [] then [] else [s[|s| - 1]] + Reverse(s[..|s| - 1])
  }

  lemma {:induction false} ReversePermutes<T>(s: seq<T>)
    ensures multiset(Reverse(s)) == multiset(s)
  {
    if s != [] {
      ReversePermutes(s[..|s| - 1]);
      assert s == s[..|s| - 1] + [s[|s| - 1]];
    }
  }

  /** The position of the first element satisfying p, if any: the result of
      `for x in xs: if p(x): return ...`. */
  function FirstWhere<T>(xs: seq<T>, p: T -> bool): (r: Option<nat>)
    ensures r.Some? ==> r.value < |xs| && p(xs[r.value])
    ensures r.Some? ==> forall j :: 0 <= j < r.value ==> !p(xs[j])
    ensures r.None? ==> forall j :: 0 <= j < |xs| ==> !p(xs[j])
  {
    if xs == [] then None
    else if p(xs[0]) then Some(0)
    else match FirstWhere(xs[1..], p)
      case None => None
      case Some(i) => Some(i + 1)
  }

  /** f applied to each element of s, in order. */
  function Map<T, U>(s: seq<T>, f: T -> U): (r: seq<U>)
    ensures |r| == |s|
  {
    if s == [] then [] else Map(s[..|s| - 1], f) + [f(s[|s| - 1])]
  }

  lemma {:induction false} MapAt<T, U>(s: seq<T>, f: T -> U, i: nat)
    requires i < |s|
    ensures Map(s, f)[i] == f(s[i])
  {
    if i < |s| - 1 {
      MapAt(s[..|s| - 1], f, i);
    }
  }

  /** One more element mapped. */
  lemma MapStep<T, U>(s: seq<T>, f: T -> U, k: nat)
    requires k < |s|
    ensures Map(s[..k + 1], f) == Map(s[..k], f) + [f(s[k])]
  {
    assert s[..k + 1][..k] == s[..k];
  }

  lemma {:induction false} MapConcat<T, U>(a: seq<T>, b: seq<T>, f: T -> U)
    ensures Map(a + b, f) == Map(a, f) + Map(b, f)
  {
    if b == [] {
      assert a + b == a;
    } else {
      MapConcat(a, b[..|b| - 1], f);
      assert (a + b)[..|a + b| - 1] == a + b[..|b| - 1];
    }
  }

  /** The pieces f(x) of the elements of s, concatenated in order. */
  function FlatMap<T, U>(s: seq<T>, f: T -> seq<U>): seq<U> {
    if s == [] then [] else FlatMap(s[..|s| - 1], f) + f(s[|s| - 1])
  }

  lemma {:induction false} FlatMapConcat<T, U>(a: seq<T>, b: seq<T>, f: T -> seq<U>)
    ensures FlatMap(a + b, f) == FlatMap(a, f) + FlatMap(b, f)
  {
    if b == [] {
      assert a + b == a;
    } else {
      FlatMapConcat(a, b[..|b| - 1], f);
      assert (a + b)[..|a + b| - 1] == a + b[..|b| - 1];
    }
  }

  lemma {:induction false} FilterConcat<T>(a: seq<T>, b: seq<T>, p: T -> bool)
    ensures Filter(a + b, p) == Filter(a, p) + Filter(b, p)
  {
    if b == [] {
      assert a + b == a;
    } else {
      var b' := b[..|b| - 1];
      var x := b[|b| - 1];
      FilterConcat(a, b', p);
      assert (a + b)[..|a + b| - 1] == a + b';
      assert (a + b)[|a + b| - 1] == x;
      calc {
        Filter(a + b, p);
        Filter(a + b', p) + (if p(x) then [x] else []);
        Filter(a, p) + Filter(b', p) + (if p(x) then [x] else []);
        Filter(a, p) + (Filter(b', p) + (if p(x) then [x] else []));
      }
    }
  }

  lemma {:induction false} CountIfConcat<T>(a: seq<T>, b: seq<T>, p: T -> bool)
    ensures CountIf(a + b, p) == CountIf(a, p) + CountIf(b, p)
  {
    if b == [] {
      assert a + b == a;
    } else {
      CountIfConcat(a, b[..|b| - 1], p);
      assert (a + b)[..|a + b| - 1] == a + b[..|b| - 1];
    }
  }
}
