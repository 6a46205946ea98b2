/** Generic sequence helpers shared by the reconciliation engines: grouping a
    sequence of records by a key, summing a weight over records, and the
    first-occurrence order of keys (the order in which Python fills a dict).
    The functions carry no postconditions; their properties are lemmas that
    a proof calls where it needs them, which keeps large proofs cheap. */
module Seqs {

  /** No element occurs twice. */
  predicate Distinct<T(==)>(s: seq<T>)
  {
    forall i, j :: 0 <= i < j < |s| ==> s[i] != s[j]
  }

  /** The elements of `s` whose key is `k`, in their original order. */
  function FilterKey<T(==), K(==)>(s: seq<T>, key: T -> K, k: K): seq<T>
  {
    if s == [] then []
    else FilterKey(s[..|s| - 1], key, k) + (if key(s[|s| - 1]) == k then [s[|s| - 1]] else [])
  }

  /** The elements of `s` whose key is not `k`, in their original order: what
      a delete filtered on the key leaves. */
  function Without<T(==), K(==)>(s: seq<T>, key: T -> K, k: K): seq<T>
  {
    if s == [] then []
    else Without(s[..|s| - 1], key, k) + (if key(s[|s| - 1]) != k then [s[|s| - 1]] else [])
  }

  /** The sum of `f` over the elements of `s`. */
  function SumBy<T>(s: seq<T>, f: T -> int): int
  {
    if s == [] then 0 else SumBy(s[..|s| - 1], f) + f(s[|s| - 1])
  }

  /** The distinct keys of `s`, in the order of their first occurrence. */
  function KeyOrder<T(==), K(==)>(s: seq<T>, key: T -> K): seq<K>
  {
    if s == [] then []
    else
      var o := KeyOrder(s[..|s| - 1], key);
      if key(s[|s| - 1]) in o then o else o + [key(s[|s| - 1])]
  }

  /** The set of keys of the elements of `s`. */
  function KeySet<T(==), K(==)>(s: seq<T>, key: T -> K): set<K>
  {
    if s == [] then {} else KeySet(s[..|s| - 1], key) + {key(s[|s| - 1])}
  }

  /** The sum, over the keys of `o`, of the `f`-weight of the elements of `s` with that key. */
  function SumOfGroups<T(==), K(==)>(s: seq<T>, key: T -> K, f: T -> int, o: seq<K>): int
  {
    if o == [] then 0
    else SumOfGroups(s, key, f, o[..|o| - 1]) + SumBy(FilterKey(s, key, o[|o| - 1]), f)
  }

  // ---------------------------------------------------------------- membership

  lemma Last<T>(s: seq<T>)
    requires s != []
    ensures forall y :: y in s <==> y in s[..|s| - 1] || y == s[|s| - 1]
  {
    assert s == s[..|s| - 1] + [s[|s| - 1]];
  }

  /** FilterKey keeps exactly the elements with key `k`. */
  lemma {:induction false} FilterKeyMembers<T, K>(s: seq<T>, key: T -> K, k: K)
    ensures forall x :: x in FilterKey(s, key, k) <==> x in s && key(x) == k
  {
    if s != [] {
      Last(s);
      FilterKeyMembers(s[..|s| - 1], key, k);
    }
  }

  /** Every pair of elements of `s`, in order, satisfies `ok`. */
  ghost predicate Pairwise<T>(s: seq<T>, ok: (T, T) -> bool)
  {
    forall i, j :: 0 <= i < j < |s| ==> ok(s[i], s[j])
  }

  /** FilterKey keeps the elements in their order, so a relation that holds
      between every earlier and later element of `s` still holds in the
      filtered sequence. */
  lemma {:induction false} FilterKeyPairwise<T, K>(s: seq<T>, key: T -> K, k: K, ok: (T, T) -> bool)
    requires Pairwise(s, ok)
    ensures Pairwise(FilterKey(s, key, k), ok)
  {
    if s != [] {
      var init, last := s[..|s| - 1], s[|s| - 1];
      forall i, j | 0 <= i < j < |init| ensures ok(init[i], init[j]) {
        assert init[i] == s[i] && init[j] == s[j];
      }
      forall m | 0 <= m < |init| ensures ok(init[m], last) {
        assert init[m] == s[m];
      }
      FilterKeyPairwise(init, key, k, ok);
      if key(last) == k {
        FilterKeySubset(init, key, k);
        PairwiseSnoc(FilterKey(init, key, k), init, last, ok);
      }
    }
  }

  /** What FilterKey keeps comes from `s`. */
  lemma FilterKeySubset<T, K>(s: seq<T>, key: T -> K, k: K)
    ensures forall x :: x in FilterKey(s, key, k) ==> x in s
  {
    FilterKeyMembers(s, key, k);
  }

  /** The step of FilterKeyPairwise: an element related to every element
      of `init` stays related to the elements drawn from `init`. */
  lemma PairwiseSnoc<T>(f: seq<T>, init: seq<T>, last: T, ok: (T, T) -> bool)
    requires Pairwise(f, ok)
    requires forall x :: x in f ==> x in init
    requires forall m :: 0 <= m < |init| ==> ok(init[m], last)
    ensures Pairwise(f + [last], ok)
  {
    var g := f + [last];
    forall i, j | 0 <= i < j < |g| ensures ok(g[i], g[j]) {
      if j == |f| {
        assert g[i] == f[i] && f[i] in f;
        var m :| 0 <= m < |init| && init[m] == f[i];
      } else {
        assert g[i] == f[i] && g[j] == f[j];
      }
    }
  }

  /** KeyOrder lists every key of `s`, once, and nothing else. */
  lemma {:induction false} KeyOrderMembers<T, K>(s: seq<T>, key: T -> K)
    ensures Distinct(KeyOrder(s, key))
    ensures forall k :: k in KeyOrder(s, key) <==> exists x :: x in s && key(x) == k
  {
    if s != [] {
      Last(s);
      KeyOrderMembers(s[..|s| - 1], key);
    }
  }

  /** KeySet holds exactly the keys of the elements of `s`. */
  lemma {:induction false} KeySetMembers<T, K>(s: seq<T>, key: T -> K)
    ensures forall k :: k in KeySet(s, key) <==> exists x :: x in s && key(x) == k
  {
    if s != [] {
      Last(s);
      KeySetMembers(s[..|s| - 1], key);
    }
  }

  lemma {:induction false} SumByConcat<T>(a: seq<T>, b: seq<T>, f: T -> int)
    ensures SumBy(a + b, f) == SumBy(a, f) + SumBy(b, f)
  {
    if b != [] {
      assert (a + b)[..|a + b| - 1] == a + b[..|b| - 1];
      SumByConcat(a, b[..|b| - 1], f);
    } else {
      assert a + b == a;
    }
  }

  lemma {:induction false} FilterKeyConcat<T, K>(a: seq<T>, b: seq<T>, key: T -> K, k: K)
    ensures FilterKey(a + b, key, k) == FilterKey(a, key, k) + FilterKey(b, key, k)
  {
    if b != [] {
      assert (a + b)[..|a + b| - 1] == a + b[..|b| - 1];
      FilterKeyConcat(a, b[..|b| - 1], key, k);
    } else {
      assert a + b == a;
    }
  }

  /** Appending one element to a prefix: the step every loop over a sequence takes. */
  lemma FilterKeySnoc<T, K>(s: seq<T>, i: nat, key: T -> K, k: K)
    requires i < |s|
    ensures FilterKey(s[..i + 1], key, k)
         == FilterKey(s[..i], key, k) + (if key(s[i]) == k then [s[i]] else [])
  {
    assert s[..i + 1][..i] == s[..i];
  }

  lemma SumBySnoc<T>(s: seq<T>, i: nat, f: T -> int)
    requires i < |s|
    ensures SumBy(s[..i + 1], f) == SumBy(s[..i], f) + f(s[i])
  {
    assert s[..i + 1][..i] == s[..i];
  }

  lemma {:induction false} SumOfGroupsConcat<T, K>(s: seq<T>, key: T -> K, f: T -> int, o1: seq<K>, o2: seq<K>)
    ensures SumOfGroups(s, key, f, o1 + o2) == SumOfGroups(s, key, f, o1) + SumOfGroups(s, key, f, o2)
  {
    if o2 != [] {
      assert (o1 + o2)[..|o1 + o2| - 1] == o1 + o2[..|o2| - 1];
      SumOfGroupsConcat(s, key, f, o1, o2[..|o2| - 1]);
    } else {
      assert o1 + o2 == o1;
    }
  }

  /** Adding one element `x` to `s` adds its weight to exactly the group of its key. */
  lemma {:induction false} SumOfGroupsSnoc<T, K>(s: seq<T>, x: T, key: T -> K, f: T -> int, o: seq<K>)
    requires Distinct(o)
    ensures SumOfGroups(s + [x], key, f, o)
         == SumOfGroups(s, key, f, o) + (if key(x) in o then f(x) else 0)
  {
    if o != [] {
      var init, k := o[..|o| - 1], o[|o| - 1];
      assert Distinct(init);
      assert o == init + [k];
      assert k !in init by {
        forall j | 0 <= j < |init| ensures init[j] != k {
          assert init[j] == o[j];
        }
      }
      SumOfGroupsSnoc(s, x, key, f, init);
      FilterKeyConcat(s, [x], key, k);
      assert [x][..0] == [];
      SumByConcat(FilterKey(s, key, k), FilterKey([x], key, k), f);
    }
  }

  /** Summing group by group over a distinct list of keys that covers every
      element gives the plain sum: each element is counted exactly once. */
  lemma {:induction false} SumPartition<T, K>(s: seq<T>, key: T -> K, f: T -> int, o: seq<K>)
    requires Distinct(o)
    requires forall x :: x in s ==> key(x) in o
    ensures SumOfGroups(s, key, f, o) == SumBy(s, f)
  {
    if s == [] {
      EmptyGroups(key, f, o);
    } else {
      var init := s[..|s| - 1];
      Last(s);
      assert init + [s[|s| - 1]] == s;
      SumPartition(init, key, f, o);
      SumOfGroupsSnoc(init, s[|s| - 1], key, f, o);
    }
  }

  lemma {:induction false} EmptyGroups<T, K>(key: T -> K, f: T -> int, o: seq<K>)
    ensures SumOfGroups([], key, f, o) == 0
  {
    if o != [] {
      EmptyGroups(key, f, o[..|o| - 1]);
    }
  }

  /** Groups whose key no element of `s` carries contribute nothing. */
  lemma {:induction false} AbsentGroups<T, K>(s: seq<T>, key: T -> K, f: T -> int, o: seq<K>)
    requires forall x :: x in s ==> key(x) !in o
    ensures SumOfGroups(s, key, f, o) == 0
  {
    if o != [] {
      var k := o[|o| - 1];
      assert forall j :: j in o[..|o| - 1] ==> j in o;
      AbsentGroups(s, key, f, o[..|o| - 1]);
      FilterKeyAbsent(s, key, k);
    }
  }

  /** A key that no element carries selects nothing. */
  lemma {:induction false} FilterKeyAbsent<T, K>(s: seq<T>, key: T -> K, k: K)
    requires forall x :: x in s ==> key(x) != k
    ensures FilterKey(s, key, k) == []
  {
    if s != [] {
      Last(s);
      FilterKeyAbsent(s[..|s| - 1], key, k);
    }
  }

  /** A key selects something exactly when it is among the keys listed by `KeyOrder`. */
  lemma FilterKeyNonEmpty<T, K>(s: seq<T>, key: T -> K, k: K)
    ensures FilterKey(s, key, k) != [] <==> k in KeyOrder(s, key)
  {
    FilterKeyMembers(s, key, k);
    KeyOrderMembers(s, key);
    if FilterKey(s, key, k) != [] {
      assert FilterKey(s, key, k)[0] in FilterKey(s, key, k);
    }
  }

  /** When every element carries the key `q`, filtering by `k` keeps all or nothing. */
  lemma {:induction false} FilterKeyUniform<T, K>(s: seq<T>, key: T -> K, q: K, k: K)
    requires forall x :: x in s ==> key(x) == q
    ensures FilterKey(s, key, k) == if q == k then s else []
  {
    if s != [] {
      var init := s[..|s| - 1];
      Last(s);
      FilterKeyUniform(init, key, q, k);
      assert init + [s[|s| - 1]] == s;
    }
  }

  lemma KeySetSnoc<T, K>(s: seq<T>, x: T, key: T -> K)
    ensures KeySet(s + [x], key) == KeySet(s, key) + {key(x)}
  {
    assert (s + [x])[..|s + [x]| - 1] == s;
  }

  lemma KeyOrderSnoc<T, K>(s: seq<T>, i: nat, key: T -> K)
    requires i < |s|
    ensures KeyOrder(s[..i + 1], key)
         == if key(s[i]) in KeyOrder(s[..i], key) then KeyOrder(s[..i], key) else KeyOrder(s[..i], key) + [key(s[i])]
  {
    assert s[..i + 1][..i] == s[..i];
  }

  /** Joining two duplicate-free sequences with no element in common leaves no duplicates. */
  lemma DistinctConcat<T>(a: seq<T>, b: seq<T>)
    requires Distinct(a) && Distinct(b)
    requires forall x :: x in a ==> x !in b
    ensures Distinct(a + b)
  {
    forall i, j | 0 <= i < j < |a + b| ensures (a + b)[i] != (a + b)[j] {
      if i < |a| && j >= |a| {
        assert (a + b)[i] in a && (a + b)[j] in b;
      }
    }
  }

  /** Taking element `i` into a grouping: what the group of key `k` gains in
      members, in `f`-weight and in `g`-keys. */
  lemma GroupSnoc<T, K, A>(s: seq<T>, i: nat, key: T -> K, k: K, f: T -> int, g: T -> A)
    requires i < |s|
    ensures FilterKey(s[..i + 1], key, k)
         == if key(s[i]) == k then FilterKey(s[..i], key, k) + [s[i]] else FilterKey(s[..i], key, k)
    ensures SumBy(FilterKey(s[..i + 1], key, k), f)
         == if key(s[i]) == k then SumBy(FilterKey(s[..i], key, k), f) + f(s[i]) else SumBy(FilterKey(s[..i], key, k), f)
    ensures KeySet(FilterKey(s[..i + 1], key, k), g)
         == if key(s[i]) == k then KeySet(FilterKey(s[..i], key, k), g) + {g(s[i])} else KeySet(FilterKey(s[..i], key, k), g)
  {
    var a := FilterKey(s[..i], key, k);
    FilterKeySnoc(s, i, key, k);
    if key(s[i]) == k {
      SumByConcat(a, [s[i]], f);
      KeySetSnoc(a, s[i], g);
    } else {
      assert a + [] == a;
    }
  }

  /** Dropping the last element of a duplicate-free sequence: the rest has no
      duplicates and does not contain that element. */
  lemma DistinctInit<T>(o: seq<T>)
    requires Distinct(o) && o != []
    ensures Distinct(o[..|o| - 1]) && o[|o| - 1] !in o[..|o| - 1]
  {
    var init := o[..|o| - 1];
    forall j | 0 <= j < |init| ensures init[j] != o[|o| - 1] {
      assert init[j] == o[j];
    }
  }

  /** The sum of a weight that is 1 everywhere is the length. */
  lemma {:induction false} SumByConst<T>(s: seq<T>, f: T -> int)
    requires forall x :: x in s ==> f(x) == 1
    ensures SumBy(s, f) == |s|
  {
    if s != [] {
      Last(s);
      SumByConst(s[..|s| - 1], f);
    }
  }

  // ---------------------------------------------------------------- deleting and updating

  /** Without keeps exactly the elements whose key is not `k`. */
  lemma {:induction false} WithoutMembers<T, K>(s: seq<T>, key: T -> K, k: K)
    ensures forall x :: x in Without(s, key, k) <==> x in s && key(x) != k
  {
    if s != [] {
      Last(s);
      WithoutMembers(s[..|s| - 1], key, k);
    }
  }

  lemma {:induction false} WithoutConcat<T, K>(a: seq<T>, b: seq<T>, key: T -> K, k: K)
    ensures Without(a + b, key, k) == Without(a, key, k) + Without(b, key, k)
  {
    if b != [] {
      assert (a + b)[..|a + b| - 1] == a + b[..|b| - 1];
      WithoutConcat(a, b[..|b| - 1], key, k);
    } else {
      assert a + b == a;
    }
  }

  /** Deleting a key that no element carries changes nothing; deleting the
      key every element carries leaves nothing. */
  lemma {:induction false} WithoutUniform<T, K>(s: seq<T>, key: T -> K, k: K)
    ensures (forall x :: x in s ==> key(x) != k) ==> Without(s, key, k) == s
    ensures (forall x :: x in s ==> key(x) == k) ==> Without(s, key, k) == []
  {
    if s != [] {
      var init := s[..|s| - 1];
      Last(s);
      WithoutUniform(init, key, k);
      assert init + [s[|s| - 1]] == s;
    }
  }

  /** Replacing element `i` by one with the same key moves the sum of that
      key's group by the change in weight and leaves other groups alone. */
  lemma SumKeyUpdate<T, K>(s: seq<T>, i: nat, x: T, key: T -> K, k: K, f: T -> int)
    requires i < |s| && key(x) == key(s[i])
    ensures SumBy(FilterKey(s[i := x], key, k), f)
         == SumBy(FilterKey(s, key, k), f) + (if key(x) == k then f(x) - f(s[i]) else 0)
  {
    var p, r := s[..i], s[i + 1..];
    assert s == p + [s[i]] + r;
    assert s[i := x] == p + [x] + r;
    SplitSum(p, s[i], r, key, k, f);
    SplitSum(p, x, r, key, k, f);
  }

  /** The group sum of `p + [y] + r` splits around `y`. */
  lemma SplitSum<T, K>(p: seq<T>, y: T, r: seq<T>, key: T -> K, k: K, f: T -> int)
    ensures SumBy(FilterKey(p + [y] + r, key, k), f)
         == SumBy(FilterKey(p, key, k), f) + (if key(y) == k then f(y) else 0) + SumBy(FilterKey(r, key, k), f)
  {
    FilterKeyConcat(p + [y], r, key, k);
    SumKeyAppend(p, y, key, k, f);
    SumByConcat(FilterKey(p + [y], key, k), FilterKey(r, key, k), f);
  }

  /** Appending an element adds its weight to its own key's group only. */
  lemma SumKeyAppend<T, K>(s: seq<T>, x: T, key: T -> K, k: K, f: T -> int)
    ensures SumBy(FilterKey(s + [x], key, k), f)
         == SumBy(FilterKey(s, key, k), f) + (if key(x) == k then f(x) else 0)
  {
    FilterKeyConcat(s, [x], key, k);
    assert [x][..0] == [];
    SumByConcat(FilterKey(s, key, k), FilterKey([x], key, k), f);
  }

  /** Deleting a key's elements leaves none with that key, and leaves the
      group of every other key as it was. */
  lemma {:induction false} FilterWithout<T, K>(s: seq<T>, key: T -> K, k: K, q: K)
    ensures FilterKey(Without(s, key, k), key, q) == if q == k then [] else FilterKey(s, key, q)
  {
    if s != [] {
      var init, x := s[..|s| - 1], s[|s| - 1];
      FilterWithout(init, key, k, q);
      FilterKeyConcat(Without(init, key, k), if key(x) != k then [x] else [], key, q);
      assert [x][..0] == [];
    }
  }

  /** Deleting a key's elements twice is deleting them once. */
  lemma {:induction false} WithoutTwice<T, K>(s: seq<T>, key: T -> K, k: K)
    ensures Without(Without(s, key, k), key, k) == Without(s, key, k)
  {
    if s != [] {
      var init, x := s[..|s| - 1], s[|s| - 1];
      WithoutTwice(init, key, k);
      WithoutConcat(Without(init, key, k), if key(x) != k then [x] else [], key, k);
      assert [x][..0] == [];
    }
  }

  /** The prefix of length k + 1 is the prefix of length k and element k. */
  lemma TakeSnoc<T>(s: seq<T>, k: nat)
    requires k < |s|
    ensures s[..k + 1] == s[..k] + [s[k]]
    ensures forall x :: x in s[..k + 1] <==> x in s[..k] || x == s[k]
  {
  }

  /** A sequence is its prefix before `i`, element `i` and the rest. */
  lemma SplitAt<T>(s: seq<T>, i: nat)
    requires i < |s|
    ensures s == s[..i] + [s[i]] + s[i + 1..]
  {
  }

  /** The only element with key `k` is the whole group of `k`. */
  lemma FilterKeySingle<T, K>(p: seq<T>, y: T, r: seq<T>, key: T -> K, k: K)
    requires forall x :: x in p ==> key(x) != k
    requires forall x :: x in r ==> key(x) != k
    requires key(y) == k
    ensures FilterKey(p + [y] + r, key, k) == [y]
  {
    FilterKeyAbsent(p, key, k);
    FilterKeyAbsent(r, key, k);
    FilterKeyConcat(p + [y], r, key, k);
    FilterKeyConcat(p, [y], key, k);
    assert [y][..0] == [];
  }
}
