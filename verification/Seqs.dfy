/** Sequence vocabulary shared by the models: options, selections, stable sorting by a
    lexicographic key, and insertion-ordered groupings (a dictionary of lists). */
module Seqs {

  datatype Option<+T> = None | Some(value: T)

  ghost predicate Distinct<T>(s: seq<T>) {
    forall i, j :: 0 <= i < j < |s| ==> s[i] != s[j]
  }

  lemma Extend<T>(s: seq<T>, k: nat)
    requires k < |s|
    ensures s[..k + 1] == s[..k] + [s[k]] && s[..k + 1][..k] == s[..k]
  {
  }

  /** Two duplicate-free sequences over the same elements are permutations of each other. */
  lemma {:induction false} DistinctPermutation<T>(a: seq<T>, b: seq<T>)
    requires Distinct(a) && Distinct(b)
    requires forall x :: x in a <==> x in b
    ensures multiset(a) == multiset(b)
  {
    DistinctCount(a);
    DistinctCount(b);
  }

  lemma {:induction false} DistinctCount<T>(a: seq<T>)
    requires Distinct(a)
    ensures forall x :: multiset(a)[x] == if x in a then 1 else 0
  {
    if a != [] {
      var n := |a| - 1;
      DistinctCount(a[..n]);
      assert a == a[..n] + [a[n]];
    }
  }

  lemma DistinctFromMultiset<T>(a: seq<T>)
    requires forall x :: multiset(a)[x] <= 1
    ensures Distinct(a)
  {
    forall i, j | 0 <= i < j < |a| ensures a[i] != a[j] {
      assert a == a[..j] + [a[j]] + a[j + 1..];
      assert a[..j][i] == a[i];
      assert multiset(a)[a[j]] == multiset(a[..j])[a[j]] + 1 + multiset(a[j + 1..])[a[j]];
    }
  }

  // ---- Selecting by key ------------------------------------------------------------

  /** The elements of `xs` whose key is `k`, in their order. */
  function Select<K(==), V>(xs: seq<V>, key: V -> Option<K>, k: K): seq<V> {
    if xs == [] then []
    else
      var n := |xs| - 1;
      Select(xs[..n], key, k) + if key(xs[n]) == Some(k) then [xs[n]] else []
  }

  lemma {:induction false} SelectMembers<K, V>(xs: seq<V>, key: V -> Option<K>, k: K)
    ensures forall x :: x in Select(xs, key, k) <==> x in xs && key(x) == Some(k)
  {
    if xs != [] {
      var n := |xs| - 1;
      SelectMembers(xs[..n], key, k);
      assert xs == xs[..n] + [xs[n]];
    }
  }

  /** The elements of `xs` that have a key, in their order. */
  function Keyed<K, V>(xs: seq<V>, key: V -> Option<K>): seq<V> {
    if xs == [] then []
    else
      var n := |xs| - 1;
      Keyed(xs[..n], key) + if key(xs[n]).Some? then [xs[n]] else []
  }

  lemma {:induction false} KeyedAll<K, V>(xs: seq<V>, key: V -> Option<K>)
    requires forall x :: x in xs ==> key(x).Some?
    ensures Keyed(xs, key) == xs
  {
    if xs != [] {
      var n := |xs| - 1;
      assert xs[n] in xs;
      KeyedAll(xs[..n], key);
      assert xs == xs[..n] + [xs[n]];
    }
  }

  /** Two keys of which each element has exactly one split a sequence without loss. */
  lemma {:induction false} KeyedSplits<K, L, V>(xs: seq<V>, key: V -> Option<K>, other: V -> Option<L>)
    requires forall x :: x in xs ==> key(x).Some? == other(x).None?
    ensures multiset(Keyed(xs, key)) + multiset(Keyed(xs, other)) == multiset(xs)
  {
    if xs != [] {
      var n := |xs| - 1;
      assert xs == xs[..n] + [xs[n]];
      KeyedSplits(xs[..n], key, other);
    }
  }

  /** The elements of `s` that satisfy `keep`, in their order. */
  function Filter<T>(s: seq<T>, keep: T -> bool): seq<T> {
    if s == [] then []
    else
      var n := |s| - 1;
      Filter(s[..n], keep) + if keep(s[n]) then [s[n]] else []
  }

  lemma {:induction false} FilterMembers<T>(s: seq<T>, keep: T -> bool)
    ensures forall x :: x in Filter(s, keep) <==> x in s && keep(x)
    ensures |Filter(s, keep)| <= |s|
  {
    if s != [] {
      var n := |s| - 1;
      FilterMembers(s[..n], keep);
      assert s == s[..n] + [s[n]];
    }
  }

  lemma {:induction false} FilterDistinct<T>(s: seq<T>, keep: T -> bool)
    requires Distinct(s)
    ensures Distinct(Filter(s, keep))
  {
    if s != [] {
      var n := |s| - 1;
      FilterDistinct(s[..n], keep);
      FilterMembers(s[..n], keep);
    }
  }

  /** A filter and the filter of the complement split a sequence without loss. */
  lemma {:induction false} FilterSplits<T>(s: seq<T>, keep: T -> bool, drop: T -> bool)
    requires forall x :: x in s ==> keep(x) == !drop(x)
    ensures multiset(Filter(s, keep)) + multiset(Filter(s, drop)) == multiset(s)
    ensures |Filter(s, keep)| + |Filter(s, drop)| == |s|
  {
    if s != [] {
      var n := |s| - 1;
      assert s == s[..n] + [s[n]];
      FilterSplits(s[..n], keep, drop);
    }
  }

  // ---- Stable sorting by a lexicographic key -----------------------------------------

  /** Python's tuple order on keys flattened to integers. */
  predicate LexLe(a: seq<int>, b: seq<int>) {
    if a == [] then true
    else if b == [] then false
    else a[0] < b[0] || (a[0] == b[0] && LexLe(a[1..], b[1..]))
  }

  lemma {:induction false} LexTotal(a: seq<int>, b: seq<int>)
    ensures LexLe(a, b) || LexLe(b, a)
    ensures LexLe(a, b) && LexLe(b, a) ==> a == b
    decreases |a|
  {
    if a != [] && b != [] && a[0] == b[0] {
      LexTotal(a[1..], b[1..]);
      assert a == [a[0]] + a[1..] && b == [b[0]] + b[1..];
    }
  }

  lemma {:induction false} LexTransitive(a: seq<int>, b: seq<int>, c: seq<int>)
    requires LexLe(a, b) && LexLe(b, c)
    ensures LexLe(a, c)
    decreases |a|
  {
    if a != [] && a[0] == b[0] == c[0] {
      LexTransitive(a[1..], b[1..], c[1..]);
    }
  }

  ghost predicate SortedBy<T>(s: seq<T>, key: T -> seq<int>) {
    forall i, j :: 0 <= i < j < |s| ==> LexLe(key(s[i]), key(s[j]))
  }

  function Insert<T>(s: seq<T>, x: T, key: T -> seq<int>): (r: seq<T>)
    ensures multiset(r) == multiset(s) + multiset{x}
    ensures |r| == |s| + 1
  {
    if s == [] || LexLe(key(s[|s| - 1]), key(x)) then s + [x]
    else
      assert s == s[..|s| - 1] + [s[|s| - 1]];
      Insert(s[..|s| - 1], x, key) + [s[|s| - 1]]
  }

  /** `sorted(s, key=key)`: stable, ties keep their order. */
  function SortBy<T>(s: seq<T>, key: T -> seq<int>): (r: seq<T>)
    ensures multiset(r) == multiset(s)
    ensures |r| == |s|
  {
    if s == [] then []
    else
      assert s == s[..|s| - 1] + [s[|s| - 1]];
      Insert(SortBy(s[..|s| - 1], key), s[|s| - 1], key)
  }

  lemma {:induction false} InsertSorted<T>(s: seq<T>, x: T, key: T -> seq<int>)
    requires SortedBy(s, key)
    ensures SortedBy(Insert(s, x, key), key)
  {
    if s != [] {
      var last := s[|s| - 1];
      var init := s[..|s| - 1];
      LexTotal(key(last), key(x));
      if LexLe(key(last), key(x)) {
        forall i | 0 <= i < |s| ensures LexLe(key(s[i]), key(x)) {
          if i < |s| - 1 { LexTransitive(key(s[i]), key(last), key(x)); }
        }
      } else {
        InsertSorted(init, x, key);
        var r := Insert(init, x, key);
        forall i | 0 <= i < |r| ensures LexLe(key(r[i]), key(last)) {
          assert r[i] in multiset(r);
          assert r[i] in init || r[i] == x;
        }
      }
    }
  }

  lemma {:induction false} SortBySorted<T>(s: seq<T>, key: T -> seq<int>)
    ensures SortedBy(SortBy(s, key), key)
  {
    if s != [] {
      SortBySorted(s[..|s| - 1], key);
      InsertSorted(SortBy(s[..|s| - 1], key), s[|s| - 1], key);
    }
  }

  /** No element of `s` has a smaller key than its member `x`. */
  ghost predicate IsLeast<T>(x: T, s: seq<T>, key: T -> seq<int>) {
    x in s && forall k :: 0 <= k < |s| ==> LexLe(key(x), key(s[k]))
  }

  lemma LeastExtends<T>(s: seq<T>, best: T, last: T, key: T -> seq<int>)
    requires IsLeast(best, s, key)
    ensures IsLeast(if LexLe(key(best), key(last)) then best else last, s + [last], key)
  {
    LexTotal(key(best), key(last));
    LexTotal(key(last), key(last));
    if !LexLe(key(best), key(last)) {
      forall k | 0 <= k < |s| ensures LexLe(key(last), key(s[k])) {
        LexTransitive(key(last), key(best), key(s[k]));
      }
    }
  }

  /** `min(s, key=key)`: the first of the least. */
  function MinBy<T>(s: seq<T>, key: T -> seq<int>): (x: T)
    requires s != []
    ensures IsLeast(x, s, key)
  {
    if |s| == 1 then
      LexTotal(key(s[0]), key(s[0]));
      s[0]
    else
      var n := |s| - 1;
      var best := MinBy(s[..n], key);
      LeastExtends(s[..n], best, s[n], key);
      assert s == s[..n] + [s[n]];
      if LexLe(key(best), key(s[n])) then best else s[n]
  }

  lemma SameMember<T>(a: seq<T>, b: seq<T>, x: T)
    requires multiset(a) == multiset(b)
    ensures x in a <==> x in b
  {
    assert x in a <==> x in multiset(a);
    assert x in b <==> x in multiset(b);
  }

  lemma SameMembers<T>(a: seq<T>, b: seq<T>)
    requires multiset(a) == multiset(b)
    ensures |a| == |b|
    ensures forall x :: x in a <==> x in b
    ensures Distinct(a) ==> Distinct(b)
  {
    assert |multiset(a)| == |a| && |multiset(b)| == |b|;
    forall x ensures x in a <==> x in b {
      assert x in a <==> x in multiset(a);
      assert x in b <==> x in multiset(b);
    }
    if Distinct(a) {
      DistinctCount(a);
      DistinctFromMultiset(b);
    }
  }

  // ---- Insertion-ordered groupings ---------------------------------------------------

  /** The lists `f` makes of the elements, one after the other. */
  function FlatMap<A, B>(s: seq<A>, f: A -> seq<B>): seq<B> {
    if s == [] then [] else FlatMap(s[..|s| - 1], f) + f(s[|s| - 1])
  }

  lemma {:induction false} FlatMapAppend<A, B>(a: seq<A>, b: seq<A>, f: A -> seq<B>)
    ensures FlatMap(a + b, f) == FlatMap(a, f) + FlatMap(b, f)
  {
    if b == [] {
      assert a + b == a;
    } else {
      FlatMapAppend(a, b[..|b| - 1], f);
      assert (a + b)[..|a + b| - 1] == a + b[..|b| - 1];
    }
  }

  lemma FlatMapOne<A, B>(x: A, f: A -> seq<B>)
    ensures FlatMap([x], f) == f(x)
  {
    assert [x][..0] == [];
  }

  /** A dictionary of lists, with its insertion order. */
  datatype Groups<K, V> = Groups(order: seq<K>, at: map<K, seq<V>>)

  /** `g` groups `xs` by `key`: one non-empty list per occurring key, members in order. */
  ghost predicate GroupsOf<K, V>(g: Groups<K, V>, xs: seq<V>, key: V -> Option<K>) {
    && Distinct(g.order)
    && (forall k :: k in g.order ==> k in g.at)
    && (forall k :: k in g.at ==> k in g.order)
    && (forall k :: k in g.at ==> g.at[k] == Select(xs, key, k) && g.at[k] != [])
    && (forall x :: x in xs && key(x).Some? ==> key(x).value in g.at)
  }

  /** The lists at `keys`, one after the other; an absent key holds nothing. */
  function Flat<K, V>(keys: seq<K>, at: map<K, seq<V>>): seq<V> {
    if keys == [] then []
    else
      var n := |keys| - 1;
      Flat(keys[..n], at) + if keys[n] in at then at[keys[n]] else []
  }

  lemma {:induction false} FlatMembers<K, V>(keys: seq<K>, at: map<K, seq<V>>)
    ensures forall v :: v in Flat(keys, at) <==> exists k :: k in keys && k in at && v in at[k]
  {
    if keys != [] {
      var n := |keys| - 1;
      FlatMembers(keys[..n], at);
      assert keys == keys[..n] + [keys[n]];
    }
  }

  lemma Snoc<T>(s: seq<T>)
    requires s != []
    ensures s == s[..|s| - 1] + [s[|s| - 1]]
  {
  }

  lemma AppendInit<T>(a: seq<T>, b: seq<T>)
    requires b != []
    ensures (a + b)[..|a + b| - 1] == a + b[..|b| - 1] && (a + b)[|a + b| - 1] == b[|b| - 1]
  {
  }

  lemma AppendThree<T>(a: seq<T>, b: seq<T>, c: seq<T>)
    ensures a + b + c == a + (b + c)
  {
  }

  lemma {:induction false} FlatAppend<K, V>(a: seq<K>, b: seq<K>, at: map<K, seq<V>>)
    ensures Flat(a + b, at) == Flat(a, at) + Flat(b, at)
  {
    if b == [] {
      assert a + b == a;
    } else {
      var n := |b| - 1;
      FlatAppend(a, b[..n], at);
      AppendInit(a, b);
      AppendThree(Flat(a, at), Flat(b[..n], at), if b[n] in at then at[b[n]] else []);
    }
  }

  lemma FlatRemove<K, V>(b: seq<K>, i: nat, at: map<K, seq<V>>)
    requires i < |b|
    ensures multiset(Flat(b, at)) == multiset(Flat(b[..i] + b[i + 1..], at)) + multiset(Flat([b[i]], at))
  {
    assert b == b[..i] + [b[i]] + b[i + 1..];
    FlatAppend(b[..i] + [b[i]], b[i + 1..], at);
    FlatAppend(b[..i], [b[i]], at);
    FlatAppend(b[..i], b[i + 1..], at);
  }

  lemma MultisetRemove<K>(b: seq<K>, i: nat)
    requires i < |b|
    ensures multiset(b[..i] + b[i + 1..]) == multiset(b) - multiset{b[i]}
  {
    assert b == b[..i] + [b[i]] + b[i + 1..];
  }

  lemma FlatStep<K, V>(keys: seq<K>, k: nat, at: map<K, seq<V>>)
    requires k < |keys| && keys[k] in at
    ensures multiset(Flat(keys[..k + 1], at)) == multiset(Flat(keys[..k], at)) + multiset(at[keys[k]])
  {
    assert keys[..k + 1][..k] == keys[..k];
  }

  lemma {:induction false} FlatPermutation<K, V>(a: seq<K>, b: seq<K>, at: map<K, seq<V>>)
    requires multiset(a) == multiset(b)
    ensures multiset(Flat(a, at)) == multiset(Flat(b, at))
    decreases |a|
  {
    if a == [] {
      assert |b| == |multiset(b)| == 0;
    } else {
      var n := |a| - 1;
      assert a[n] in multiset(b);
      var i :| 0 <= i < |b| && b[i] == a[n];
      MultisetRemove(a, n);
      MultisetRemove(b, i);
      FlatRemove(a, n, at);
      FlatRemove(b, i, at);
      assert a[..n] + a[n + 1..] == a[..n];
      FlatPermutation(a[..n], b[..i] + b[i + 1..], at);
    }
  }

  /** Keys that hold nothing do not matter: any duplicate-free cover of the domain
      flattens to the same elements. */
  lemma FlatCover<K, V>(a: seq<K>, b: seq<K>, at: map<K, seq<V>>)
    requires Distinct(a) && Distinct(b)
    requires forall k :: k in at ==> k in a && k in b
    ensures multiset(Flat(a, at)) == multiset(Flat(b, at))
  {
    var present := (k: K) => k in at;
    FlatFilter(a, at, present);
    FlatFilter(b, at, present);
    FilterDistinct(a, present);
    FilterDistinct(b, present);
    FilterMembers(a, present);
    FilterMembers(b, present);
    DistinctPermutation(Filter(a, present), Filter(b, present));
    FlatPermutation(Filter(a, present), Filter(b, present), at);
  }

  lemma {:induction false} FlatFilter<K, V>(keys: seq<K>, at: map<K, seq<V>>, present: K -> bool)
    requires forall k :: k in keys && k in at ==> present(k)
    ensures Flat(keys, at) == Flat(Filter(keys, present), at)
  {
    if keys != [] {
      var n := |keys| - 1;
      FlatFilter(keys[..n], at, present);
      FlatAppend(Filter(keys[..n], present), [keys[n]], at);
      assert Flat([keys[n]], at) == if keys[n] in at then at[keys[n]] else [];
      assert Filter(keys[..n], present) + [] == Filter(keys[..n], present);
    }
  }

  lemma {:induction false} FlatAgree<K, V>(keys: seq<K>, at: map<K, seq<V>>, at': map<K, seq<V>>)
    requires forall k :: k in keys ==> (k in at <==> k in at')
    requires forall k :: k in keys && k in at ==> multiset(at[k]) == multiset(at'[k])
    ensures multiset(Flat(keys, at)) == multiset(Flat(keys, at'))
  {
    if keys != [] {
      FlatAgree(keys[..|keys| - 1], at, at');
    }
  }

  /** Changing one list of a duplicate-free key sequence changes the flattening by that much. */
  lemma {:induction false} FlatUpdate<K, V>(keys: seq<K>, at: map<K, seq<V>>, k: K, x: V)
    requires Distinct(keys) && k in keys
    ensures var before := if k in at then at[k] else [];
            multiset(Flat(keys, at[k := before + [x]])) == multiset(Flat(keys, at)) + multiset{x}
  {
    var before := if k in at then at[k] else [];
    var n := |keys| - 1;
    if keys[n] == k {
      assert k !in keys[..n];
      FlatAgree(keys[..n], at, at[k := before + [x]]);
    } else {
      FlatUpdate(keys[..n], at, k, x);
    }
  }

  /** One step of `groups[key(x)].append(x)` on a `defaultdict(list)`. */
  function Grouped<K(==), V>(g: Groups<K, V>, k: K, x: V): Groups<K, V> {
    if k in g.at then Groups(g.order, g.at[k := g.at[k] + [x]])
    else Groups(g.order + [k], g.at[k := [x]])
  }

  lemma GroupedKeeps<K, V>(g: Groups<K, V>, xs: seq<V>, key: V -> Option<K>, x: V)
    requires GroupsOf(g, xs, key) && key(x).Some?
    ensures GroupsOf(Grouped(g, key(x).value, x), xs + [x], key)
  {
    var k := key(x).value;
    var g' := Grouped(g, k, x);
    assert (xs + [x])[..|xs|] == xs;
    forall k' | k' in g'.at ensures g'.at[k'] == Select(xs + [x], key, k') && g'.at[k'] != [] {
      if k' == k && k !in g.at { AbsentSelect(xs, key, k); }
    }
  }

  lemma GroupedFlat<K, V>(g: Groups<K, V>, k: K, x: V)
    requires Distinct(g.order) && (k in g.at <==> k in g.order)
    ensures multiset(Flat(Grouped(g, k, x).order, Grouped(g, k, x).at)) == multiset(Flat(g.order, g.at)) + multiset{x}
  {
    if k in g.at {
      FlatUpdate(g.order, g.at, k, x);
    } else {
      FlatAppend(g.order, [k], g.at);
      FlatUpdate(g.order + [k], g.at, k, x);
      var none: seq<V> := [];
      assert none + [x] == [x];
    }
  }

  /** The loop `for x in xs: groups[key(x)].append(x)`; an element with no key is passed over. */
  method GroupBy<K(==), V>(xs: seq<V>, key: V -> Option<K>) returns (g: Groups<K, V>)
    ensures GroupsOf(g, xs, key)
    ensures multiset(Flat(g.order, g.at)) == multiset(Keyed(xs, key))
  {
    g := Groups([], map[]);
    for i := 0 to |xs|
      invariant GroupsOf(g, xs[..i], key)
      invariant multiset(Flat(g.order, g.at)) == multiset(Keyed(xs[..i], key))
    {
      Extend(xs, i);
      StepKeeps(g, xs[..i], key, xs[i]);
      if key(xs[i]).Some? {
        g := Grouped(g, key(xs[i]).value, xs[i]);
      }
    }
    assert xs[..|xs|] == xs;
  }

  lemma StepKeeps<K, V>(g: Groups<K, V>, xs: seq<V>, key: V -> Option<K>, x: V)
    requires GroupsOf(g, xs, key) && multiset(Flat(g.order, g.at)) == multiset(Keyed(xs, key))
    ensures var g' := if key(x).Some? then Grouped(g, key(x).value, x) else g;
            GroupsOf(g', xs + [x], key) && multiset(Flat(g'.order, g'.at)) == multiset(Keyed(xs + [x], key))
  {
    KeyedStep(xs, key, x);
    if key(x).Some? {
      GroupedKeeps(g, xs, key, x);
      GroupedFlat(g, key(x).value, x);
    } else {
      SkippedKeeps(g, xs, key, x);
    }
  }

  lemma KeyedStep<K, V>(xs: seq<V>, key: V -> Option<K>, x: V)
    ensures Keyed(xs + [x], key) == Keyed(xs, key) + if key(x).Some? then [x] else []
  {
    assert (xs + [x])[..|xs|] == xs;
  }

  lemma SkippedKeeps<K, V>(g: Groups<K, V>, xs: seq<V>, key: V -> Option<K>, x: V)
    requires GroupsOf(g, xs, key) && key(x).None?
    ensures GroupsOf(g, xs + [x], key)
  {
    assert (xs + [x])[..|xs|] == xs;
    forall k | k in g.at ensures g.at[k] == Select(xs + [x], key, k) {
      assert Select(xs + [x], key, k) == Select(xs, key, k) + [];
    }
  }

  lemma {:induction false} AbsentSelect<K, V>(xs: seq<V>, key: V -> Option<K>, k: K)
    requires forall x :: x in xs ==> key(x) != Some(k)
    ensures Select(xs, key, k) == []
  {
    if xs != [] {
      AbsentSelect(xs[..|xs| - 1], key, k);
    }
  }

  /** A grouping whose order lists its keys once and whose lists are never empty. */
  ghost predicate Indexed<K, V>(g: Groups<K, V>) {
    && Distinct(g.order)
    && (forall k :: k in g.order ==> k in g.at)
    && (forall k :: k in g.at ==> k in g.order && g.at[k] != [])
  }

  /** Every member of a list has that list's key. */
  ghost predicate KeyedMembers<K, V>(g: Groups<K, V>, xs: seq<V>, key: V -> Option<K>) {
    forall k :: k in g.at ==> KeyedList(g.at[k], xs, key, k)
  }

  ghost predicate KeyedList<K, V>(s: seq<V>, xs: seq<V>, key: V -> Option<K>, k: K) {
    forall x :: x in s ==> x in xs && key(x) == Some(k)
  }

  lemma GroupsIndexed<K, V>(g: Groups<K, V>, xs: seq<V>, key: V -> Option<K>)
    requires GroupsOf(g, xs, key)
    ensures Indexed(g) && KeyedMembers(g, xs, key)
  {
    forall k | k in g.at ensures KeyedList(g.at[k], xs, key, k) {
      SelectMembers(xs, key, k);
    }
  }

  function SortLists<K, V>(at: map<K, seq<V>>, key: V -> seq<int>): map<K, seq<V>> {
    map k | k in at :: SortBy(at[k], key)
  }

  lemma SortedSelect<K, V>(xs: seq<V>, key: V -> Option<K>, order: V -> seq<int>, k: K)
    ensures KeyedList(SortBy(Select(xs, key, k), order), xs, key, k)
  {
    forall x | x in SortBy(Select(xs, key, k), order) ensures x in xs && key(x) == Some(k) {
      SameMember(Select(xs, key, k), SortBy(Select(xs, key, k), order), x);
      SelectMembers(xs, key, k);
    }
  }

  lemma SortedSelected<K, V>(g: Groups<K, V>, xs: seq<V>, key: V -> Option<K>, order: V -> seq<int>)
    requires forall k :: k in g.at ==> g.at[k] == SortBy(Select(xs, key, k), order)
    ensures KeyedMembers(g, xs, key)
  {
    forall k | k in g.at ensures KeyedList(g.at[k], xs, key, k) {
      SortedSelect(xs, key, order, k);
    }
  }

  lemma SortedIndexed<K, V>(g: Groups<K, V>, order: V -> seq<int>)
    requires Indexed(g)
    ensures Indexed(Groups(g.order, SortLists(g.at, order)))
    ensures multiset(Flat(g.order, SortLists(g.at, order))) == multiset(Flat(g.order, g.at))
  {
    FlatAgree(g.order, g.at, SortLists(g.at, order));
  }

  /** Group by `key`, then sort every group by `order`. */
  method SortedGroups<K(==), V>(xs: seq<V>, key: V -> Option<K>, order: V -> seq<int>) returns (r: Groups<K, V>)
    ensures Indexed(r) && KeyedMembers(r, xs, key)
    ensures multiset(Flat(r.order, r.at)) == multiset(Keyed(xs, key))
    ensures forall k :: k in r.at ==> r.at[k] == SortBy(Select(xs, key, k), order)
    ensures forall x :: x in xs && key(x).Some? ==> key(x).value in r.at
  {
    var g := GroupBy(xs, key);
    r := Groups(g.order, SortLists(g.at, order));
    SortedIndexed(g, order);
    SortedSelected(r, xs, key, order);
  }

  // ---- Sizes of sets -----------------------------------------------------------------

  lemma Subset<T>(a: set<T>, b: set<T>)
    requires a <= b
    ensures |a| <= |b|
  {
    assert a + (b - a) == b;
  }

  // ---- Fresh numbers -----------------------------------------------------------------

  lemma {:induction false} AboveAll(used: set<nat>) returns (b: nat)
    ensures forall x :: x in used ==> x < b
  {
    if used == {} {
      b := 0;
    } else {
      var y :| y in used;
      b := AboveAll(used - {y});
      b := if y < b then b else y + 1;
      assert forall x :: x in used ==> x == y || x in used - {y};
    }
  }

  lemma FreshExists(used: set<nat>)
    ensures exists x: nat :: x !in used
  {
    var b := AboveAll(used);
    assert b !in used;
  }
}
