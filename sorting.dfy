/**
 * `sortProducts`: a fresh copy of the product list sorted in place by
 * `Array.prototype.sort`, which ECMAScript requires to be stable. Every
 * comparator the storefront passes has the form `(a, b) => key(a) - key(b)`
 * for an integer key, so the sort is modelled as a stable insertion sort by key,
 * run in place on an array. The lemmas show that its result is a permutation of
 * the input, ordered by the key, stable, and the only sequence with those three
 * properties.
 */
module Sorting {
  import opened Entities

  // ---------------------------------------------------------------------------
  // Stable sorting by an integer key
  // ---------------------------------------------------------------------------

  ghost predicate SortedBy<T>(s: seq<T>, key: T -> int) {
    forall i, j :: 0 <= i < j < |s| ==> key(s[i]) <= key(s[j])
  }

  /** Inserts `x` after every element whose key is not greater than its own. */
  function Insert<T>(s: seq<T>, x: T, key: T -> int): seq<T> {
    if s == [] then [x]
    else if key(x) < key(s[0]) then [x] + s
    else [s[0]] + Insert(s[1..], x, key)
  }

  /** Sorts the prefixes of `s` one element at a time, left to right. */
  function InsertionSort<T>(s: seq<T>, key: T -> int): seq<T> {
    if s == [] then []
    else Insert(InsertionSort(s[..|s| - 1], key), s[|s| - 1], key)
  }

  /** The elements of `s` whose key is `k`, in their order in `s`. */
  function WithKey<T>(s: seq<T>, key: T -> int, k: int): seq<T> {
    if s == [] then []
    else (if key(s[0]) == k then [s[0]] else []) + WithKey(s[1..], key, k)
  }

  lemma {:induction false} InsertPermutes<T>(s: seq<T>, x: T, key: T -> int)
    ensures multiset(Insert(s, x, key)) == multiset(s) + multiset{x}
  {
    if s != [] && key(x) >= key(s[0]) {
      InsertPermutes(s[1..], x, key);
      assert s == [s[0]] + s[1..];
    }
  }

  lemma {:induction false} InsertKeepsOrder<T>(s: seq<T>, x: T, key: T -> int)
    requires SortedBy(s, key)
    ensures SortedBy(Insert(s, x, key), key)
  {
    if s != [] && key(x) >= key(s[0]) {
      InsertKeepsOrder(s[1..], x, key);
      var rest := Insert(s[1..], x, key);
      InsertPermutes(s[1..], x, key);
      forall j | 0 <= j < |rest| ensures key(s[0]) <= key(rest[j]) {
        assert rest[j] in multiset(rest);
        assert rest[j] == x || rest[j] in multiset(s[1..]);
      }
    }
  }

  lemma {:induction false} WithKeyAppend<T>(a: seq<T>, b: seq<T>, key: T -> int, k: int)
    ensures WithKey(a + b, key, k) == WithKey(a, key, k) + WithKey(b, key, k)
  {
    if a == [] {
      assert a + b == b;
    } else {
      var ab := a + b;
      assert ab[0] == a[0];
      assert ab[1..] == a[1..] + b;
      var head := if key(a[0]) == k then [a[0]] else [];
      assert WithKey(ab, key, k) == head + WithKey(a[1..] + b, key, k);
      WithKeyAppend(a[1..], b, key, k);
      assert WithKey(a, key, k) == head + WithKey(a[1..], key, k);
    }
  }

  /** No element of `s` has a key below `m`, so none has key `k < m`. */
  lemma {:induction false} WithKeyBelowMinimum<T>(s: seq<T>, key: T -> int, k: int)
    requires forall i :: 0 <= i < |s| ==> k < key(s[i])
    ensures WithKey(s, key, k) == []
  {
    if s != [] {
      WithKeyBelowMinimum(s[1..], key, k);
    }
  }

  /** Inserting into a sorted sequence puts `x` after every element with the same key. */
  lemma {:induction false} InsertIsStable<T>(s: seq<T>, x: T, key: T -> int, k: int)
    requires SortedBy(s, key)
    ensures WithKey(Insert(s, x, key), key, k)
         == WithKey(s, key, k) + (if key(x) == k then [x] else [])
  {
    if s == [] {
    } else if key(x) < key(s[0]) {
      var r := [x] + s;
      assert r[0] == x && r[1..] == s;
      assert WithKey(r, key, k) == (if key(x) == k then [x] else []) + WithKey(s, key, k);
      if key(x) == k {
        forall i | 0 <= i < |s| ensures k < key(s[i]) {
          assert i == 0 || key(s[0]) <= key(s[i]);
        }
        WithKeyBelowMinimum(s, key, k);
      }
    } else {
      var tail := s[1..];
      assert SortedBy(tail, key) by {
        forall i, j | 0 <= i < j < |tail| ensures key(tail[i]) <= key(tail[j]) {
          assert tail[i] == s[i + 1] && tail[j] == s[j + 1];
        }
      }
      InsertIsStable(tail, x, key, k);
      var inserted := Insert(tail, x, key);
      var r := [s[0]] + inserted;
      assert r[0] == s[0] && r[1..] == inserted;
      var head := if key(s[0]) == k then [s[0]] else [];
      assert WithKey(r, key, k) == head + WithKey(inserted, key, k);
      assert WithKey(s, key, k) == head + WithKey(tail, key, k);
    }
  }

  /** The result of the sort is ordered by the key. */
  lemma {:induction false} SortIsOrdered<T>(s: seq<T>, key: T -> int)
    ensures SortedBy(InsertionSort(s, key), key)
  {
    if s != [] {
      SortIsOrdered(s[..|s| - 1], key);
      InsertKeepsOrder(InsertionSort(s[..|s| - 1], key), s[|s| - 1], key);
    }
  }

  /** The result of the sort is a permutation of its input. */
  lemma {:induction false} SortPermutes<T>(s: seq<T>, key: T -> int)
    ensures multiset(InsertionSort(s, key)) == multiset(s)
  {
    if s != [] {
      var init := s[..|s| - 1];
      SortPermutes(init, key);
      InsertPermutes(InsertionSort(init, key), s[|s| - 1], key);
      assert s == init + [s[|s| - 1]];
    }
  }

  /** Elements with equal keys keep their relative input order. */
  lemma {:induction false} SortIsStable<T>(s: seq<T>, key: T -> int, k: int)
    ensures WithKey(InsertionSort(s, key), key, k) == WithKey(s, key, k)
  {
    if s != [] {
      var init, last := s[..|s| - 1], s[|s| - 1];
      var sorted := InsertionSort(init, key);
      assert InsertionSort(s, key) == Insert(sorted, last, key);
      SortIsStable(init, key, k);
      SortIsOrdered(init, key);
      InsertIsStable(sorted, last, key, k);
      WithKeyOfLast(s, key, k);
    }
  }

  /** The elements with key `k` of a non-empty sequence: those before its last element, then possibly the last. */
  lemma WithKeyOfLast<T>(s: seq<T>, key: T -> int, k: int)
    requires s != []
    ensures WithKey(s, key, k)
         == WithKey(s[..|s| - 1], key, k) + (if key(s[|s| - 1]) == k then [s[|s| - 1]] else [])
  {
    var init, last := s[..|s| - 1], s[|s| - 1];
    assert s == init + [last];
    WithKeyAppend(init, [last], key, k);
    var one := [last];
    assert one[0] == last && one[1..] == [];
    assert WithKey(one, key, k) == (if key(last) == k then [last] else []) + WithKey([], key, k);
  }

  /**
   * Ordered and stable determine the result: two sequences ordered by the key
   * that agree on the elements of every key are equal. So the insertion sort
   * is the one result a stable `Array.prototype.sort` may give.
   */
  lemma {:induction false} StableOrderIsUnique<T>(r: seq<T>, t: seq<T>, key: T -> int)
    requires SortedBy(r, key) && SortedBy(t, key)
    requires forall k :: WithKey(r, key, k) == WithKey(t, key, k)
    ensures r == t
    decreases |r|
  {
    if r == [] || t == [] {
      if r != [] {
        WithKeyOfHead(r, key);
        assert false;
      } else if t != [] {
        WithKeyOfHead(t, key);
        assert false;
      }
    } else {
      var m := key(r[0]);
      assert key(t[0]) == m by {
        WithKeyWitness(t, key, m);
        WithKeyWitness(r, key, key(t[0]));
      }
      assert r[0] == WithKey(r, key, m)[0] == WithKey(t, key, m)[0] == t[0];
      forall k ensures WithKey(r[1..], key, k) == WithKey(t[1..], key, k) {
        var head := if m == k then [r[0]] else [];
        var restR, restT := WithKey(r[1..], key, k), WithKey(t[1..], key, k);
        assert WithKey(r, key, k) == head + restR;
        assert WithKey(t, key, k) == head + restT;
        assert (head + restR)[|head|..] == restR;
        assert (head + restT)[|head|..] == restT;
      }
      StableOrderIsUnique(r[1..], t[1..], key);
      assert r == [r[0]] + r[1..] && t == [t[0]] + t[1..];
    }
  }

  lemma WithKeyOfHead<T>(s: seq<T>, key: T -> int)
    requires s != []
    ensures WithKey(s, key, key(s[0])) != []
  {
  }

  /** In a sequence ordered by the key, an element with key `k` means the first key is at most `k`. */
  lemma {:induction false} WithKeyWitness<T>(s: seq<T>, key: T -> int, k: int)
    requires s != [] && SortedBy(s, key)
    requires WithKey(s, key, k) != [] || (exists i :: 0 <= i < |s| && key(s[i]) == k)
    ensures key(s[0]) <= k
    ensures WithKey(s, key, k) != []
    decreases |s|
  {
    if key(s[0]) != k {
      assert WithKey(s, key, k) == WithKey(s[1..], key, k);
      if WithKey(s, key, k) != [] {
        assert s[1..] != [];
        WithKeyWitness(s[1..], key, k);
        assert key(s[0]) <= key(s[1]);
      } else {
        var i :| 0 <= i < |s| && key(s[i]) == k;
        assert s[1..][i - 1] == s[i];
        WithKeyWitness(s[1..], key, k);
      }
    }
  }

  /**
   * `Insert` places `x` at the index `j` where the in-place loop stops
   * shifting: after the elements whose key is not greater than its own, and
   * before the first one whose key is greater.
   */
  lemma {:induction false} InsertAt<T>(s: seq<T>, x: T, key: T -> int, j: nat)
    requires j <= |s|
    requires forall k :: 0 <= k < j ==> key(s[k]) <= key(x)
    requires j < |s| ==> key(x) < key(s[j])
    ensures Insert(s, x, key) == s[..j] + [x] + s[j..]
  {
    var front, back := s[..j], s[j..];
    assert s == front + back;
    forall y | y in front ensures key(y) <= key(x) {
      var k :| 0 <= k < |front| && front[k] == y;
      assert front[k] == s[k];
    }
    InsertPastPrefix(front, back, x, key);
    if back != [] {
      assert back[0] == s[j];
    }
    assert Insert(back, x, key) == [x] + back;
  }

  /** `Insert` passes over a prefix whose keys are all at most that of `x`. */
  lemma {:induction false} InsertPastPrefix<T>(p: seq<T>, q: seq<T>, x: T, key: T -> int)
    requires forall y :: y in p ==> key(y) <= key(x)
    ensures Insert(p + q, x, key) == p + Insert(q, x, key)
  {
    if p == [] {
      assert p + q == q;
    } else {
      var pq := p + q;
      assert pq[0] == p[0] && pq[1..] == p[1..] + q;
      assert Insert(pq, x, key) == [p[0]] + Insert(p[1..] + q, x, key);
      InsertPastPrefix(p[1..], q, x, key);
      assert [p[0]] + (p[1..] + Insert(q, x, key)) == p + Insert(q, x, key);
    }
  }

  /**
   * The shifting loop of one in-place step: moves the elements of `a[..i]`
   * whose key is greater than `x`'s one place right, and returns the index
   * of the gap it leaves.
   */
  method ShiftGreater<T>(a: array<T>, i: nat, x: T, key: T -> int) returns (j: nat)
    requires i < a.Length
    modifies a
    ensures j <= i
    ensures forall k :: 0 <= k < j ==> a[k] == old(a[k])
    ensures forall k :: j < k <= i ==> a[k] == old(a[k - 1])
    ensures forall k :: i < k < a.Length ==> a[k] == old(a[k])
    ensures forall k :: j <= k < i ==> key(old(a[k])) > key(x)
    ensures j > 0 ==> key(old(a[j - 1])) <= key(x)
  {
    j := i;
    while j > 0 && key(a[j - 1]) > key(x)
      invariant 0 <= j <= i
      invariant forall k :: 0 <= k < j ==> a[k] == old(a[k])
      invariant forall k :: j < k <= i ==> a[k] == old(a[k - 1])
      invariant forall k :: i < k < a.Length ==> a[k] == old(a[k])
      invariant forall k :: j <= k < i ==> key(old(a[k])) > key(x)
    {
      a[j] := a[j - 1];
      j := j - 1;
    }
  }

  /**
   * One step of the in-place sort: with `a[..i]` already sorted, shifts the
   * elements with a greater key than `a[i]` one place right and drops `a[i]`
   * into the gap.
   */
  method InsertInPlace<T>(a: array<T>, i: nat, key: T -> int)
    requires i < a.Length && SortedBy(a[..i], key)
    modifies a
    ensures a[..i + 1] == Insert(old(a[..i]), old(a[i]), key)
    ensures a[i + 1..] == old(a[i + 1..])
  {
    var x := a[i];
    ghost var before := a[..];
    var j := ShiftGreater(a, i, x, key);
    a[j] := x;
    ShiftedIsInsert(before, a[..], i, j, key);
  }

  /**
   * The array contents after the shifting loop and the store of `x` into the
   * gap: the first `i + 1` elements are `x` inserted into the sorted prefix,
   * and the elements after them are the ones before.
   */
  lemma ShiftedIsInsert<T>(before: seq<T>, after: seq<T>, i: nat, j: nat, key: T -> int)
    requires i < |before| == |after| && j <= i && SortedBy(before[..i], key)
    requires forall k :: 0 <= k < j ==> after[k] == before[k]
    requires after[j] == before[i]
    requires forall k :: j < k <= i ==> after[k] == before[k - 1]
    requires forall k :: i < k < |after| ==> after[k] == before[k]
    requires forall k :: j <= k < i ==> key(before[k]) > key(before[i])
    requires j > 0 ==> key(before[j - 1]) <= key(before[i])
    ensures after[..i + 1] == Insert(before[..i], before[i], key)
    ensures after[i + 1..] == before[i + 1..]
  {
    var sorted, x := before[..i], before[i];
    forall k | 0 <= k < j ensures key(sorted[k]) <= key(x) {
      assert key(sorted[k]) <= key(sorted[j - 1]);
    }
    InsertAt(sorted, x, key, j);
    var expected := sorted[..j] + [x] + sorted[j..];
    forall k | 0 <= k <= i ensures after[k] == expected[k] {
      if k < j {
        assert expected[k] == sorted[k];
      } else if k > j {
        assert expected[k] == sorted[k - 1];
      }
    }
    assert after[..i + 1] == expected;
  }

  /**
   * The in-place insertion sort: the array ends up holding `InsertionSort` of
   * what it held before.
   */
  method SortInPlace<T>(a: array<T>, key: T -> int)
    modifies a
    ensures a[..] == InsertionSort(old(a[..]), key)
  {
    ghost var input := a[..];
    var i := 0;
    while i < a.Length
      invariant 0 <= i <= a.Length
      invariant a[..i] == InsertionSort(input[..i], key)
      invariant a[i..] == input[i..]
    {
      SortIsOrdered(input[..i], key);
      ghost var before := a[..];
      InsertInPlace(a, i, key);
      SortStep(input, before, a[..], i, key);
      i := i + 1;
    }
    assert input[..a.Length] == input;
  }

  /** One pass of the outer loop extends the sorted prefix by one element of the input. */
  lemma SortStep<T>(input: seq<T>, before: seq<T>, after: seq<T>, i: nat, key: T -> int)
    requires i < |input| == |before| == |after|
    requires before[..i] == InsertionSort(input[..i], key) && before[i..] == input[i..]
    requires after[..i + 1] == Insert(before[..i], before[i], key)
    requires after[i + 1..] == before[i + 1..]
    ensures after[..i + 1] == InsertionSort(input[..i + 1], key)
    ensures after[i + 1..] == input[i + 1..]
  {
    assert before[i] == before[i..][0] == input[i..][0] == input[i];
    assert input[..i + 1][..i] == input[..i];
    assert before[i + 1..] == before[i..][1..];
    assert input[i + 1..] == input[i..][1..];
  }

  // ---------------------------------------------------------------------------
  // sortProducts
  // ---------------------------------------------------------------------------

  /**
   * The outcome of `localeCompare` under the Thai locale and under the default
   * locale, given as ranks: `a` sorts before `b` when its rank is smaller.
   */
  datatype Collation = Collation(thai: string -> int, standard: string -> int)

  datatype SortKey = PriceLow | PriceHigh | NameTh | NameEn | Featured | Unsorted

  function ParseSortKey(sortBy: string): SortKey {
    if sortBy == "price-low" then PriceLow
    else if sortBy == "price-high" then PriceHigh
    else if sortBy == "name-th" then NameTh
    else if sortBy == "name-en" then NameEn
    else if sortBy == "featured" then Featured
    else Unsorted
  }

  /** The key `k` behind each comparator `(a, b) => k(a) - k(b)` of `sortProducts`. */
  function ProductKey(sortKey: SortKey, collation: Collation): Product -> int {
    match sortKey
    case PriceLow => (p: Product) => p.price
    case PriceHigh => (p: Product) => -p.price
    case NameTh => (p: Product) => collation.thai(p.name.th)
    case NameEn => (p: Product) => collation.standard(p.name.en)
    case Featured => (p: Product) => if p.featured then -1 else 0
    case Unsorted => (p: Product) => 0
  }

  /** The list `sortProducts` returns for `sortBy`: the input order for an unknown key. */
  function SortedProducts(products: seq<Product>, sortBy: string, collation: Collation): seq<Product> {
    var sortKey := ParseSortKey(sortBy);
    if sortKey == Unsorted then products
    else InsertionSort(products, ProductKey(sortKey, collation))
  }

  /** `sortProducts`: copies the list into a fresh array and sorts the copy in place. */
  method SortProducts(products: seq<Product>, sortBy: string, collation: Collation)
    returns (sorted: seq<Product>)
    ensures sorted == SortedProducts(products, sortBy, collation)
  {
    var copy := new Product[|products|](i requires 0 <= i < |products| => products[i]);
    assert copy[..] == products;
    var sortKey := ParseSortKey(sortBy);
    if sortKey != Unsorted {
      SortInPlace(copy, ProductKey(sortKey, collation));
    }
    sorted := copy[..];
  }

  /**
   * What `sortProducts` promises: a permutation of its input; non-decreasing
   * prices for `price-low`, non-increasing for `price-high`, every featured
   * product before every other one for `featured`; products the comparator
   * ties keep their input order; an unknown key keeps the input order.
   */
  lemma SortProductsSpec(products: seq<Product>, sortBy: string, collation: Collation)
    ensures var r := SortedProducts(products, sortBy, collation);
      && multiset(r) == multiset(products)
      && (sortBy == "price-low" ==> forall i, j :: 0 <= i < j < |r| ==> r[i].price <= r[j].price)
      && (sortBy == "price-high" ==> forall i, j :: 0 <= i < j < |r| ==> r[i].price >= r[j].price)
      && (sortBy == "featured" ==> forall i, j :: 0 <= i < j < |r| && r[j].featured ==> r[i].featured)
      && (ParseSortKey(sortBy) == Unsorted ==> r == products)
      && (forall k :: WithKey(r, ProductKey(ParseSortKey(sortBy), collation), k)
                   == WithKey(products, ProductKey(ParseSortKey(sortBy), collation), k))
  {
    var sortKey := ParseSortKey(sortBy);
    var key := ProductKey(sortKey, collation);
    if sortKey != Unsorted {
      SortPermutes(products, key);
      SortIsOrdered(products, key);
      forall k ensures WithKey(InsertionSort(products, key), key, k) == WithKey(products, key, k) {
        SortIsStable(products, key, k);
      }
    }
  }

  /** Stability on the example of two equally priced products: the first stays first. */
  lemma EqualPricesKeepOrder(b: Product, a: Product, collation: Collation)
    requires b.price == a.price
    ensures SortedProducts([b, a], "price-low", collation) == [b, a]
  {
    var key := ProductKey(PriceLow, collation);
    assert key(a) == key(b);
    assert [b, a][..1] == [b];
    assert InsertionSort([b], key) == [b] by {
      assert [b][..0] == [];
    }
    assert Insert([b], a, key) == [b] + Insert([b][1..], a, key);
    assert [b][1..] == [];
  }
}
