/** Sets as strictly increasing lists: what sorting the distinct elements of a map, or of a
    table, gives. */
module Sorting {
  import opened Text

  ghost function Elements<T>(xs: seq<T>): (s: set<T>) {
    set x | x in xs
  }

  ghost predicate Increasing<T>(less: (T, T) -> bool, xs: seq<T>) {
    forall i, j :: 0 <= i < j < |xs| ==> less(xs[i], xs[j])
  }

  ghost predicate ListOf<T>(less: (T, T) -> bool, xs: seq<T>, s: set<T>) {
    Increasing(less, xs) && Elements(xs) == s
  }

  /** A strict total order on the elements of s. */
  ghost predicate Orders<T>(less: (T, T) -> bool, s: set<T>) {
    && (forall a, b :: a in s && b in s && less(a, b) ==> !less(b, a))
    && (forall a, b :: a in s && b in s ==> less(a, b) || a == b || less(b, a))
    && (forall a, b, c :: a in s && b in s && c in s && less(a, b) && less(b, c) ==> less(a, c))
  }

  lemma EmptyElements<T>(xs: seq<T>)
    ensures Elements(xs) == {} <==> xs == []
  {
    assert xs != [] ==> xs[0] in Elements(xs);
  }

  lemma ElementsConcat<T>(a: seq<T>, b: seq<T>)
    ensures Elements(a + b) == Elements(a) + Elements(b)
  {
    assert forall x :: x in a + b <==> x in a || x in b;
  }

  /** What f gives for the elements of s, together. */
  ghost function Union<A, B>(f: A -> set<B>, s: set<A>): (r: set<B>) {
    set a, b | a in s && b in f(a) :: b
  }

  lemma UnionAdd<A, B>(f: A -> set<B>, s: set<A>, a: A)
    ensures Union(f, s + {a}) == Union(f, s) + f(a)
  {
  }

  lemma ElementsAppend<T>(xs: seq<T>, x: T)
    ensures Elements(xs + [x]) == Elements(xs) + {x}
  {
    ElementsConcat(xs, [x]);
  }

  lemma ElementsLast<T>(xs: seq<T>)
    requires xs != []
    ensures Elements(xs) == Elements(xs[..|xs| - 1]) + {xs[|xs| - 1]}
  {
    assert xs == xs[..|xs| - 1] + [xs[|xs| - 1]];
    ElementsAppend(xs[..|xs| - 1], xs[|xs| - 1]);
  }

  lemma HeadFirst<T>(less: (T, T) -> bool, xs: seq<T>, s: set<T>, x: T)
    requires xs != [] && ListOf(less, xs, s) && x in s
    ensures xs[0] in s && (x == xs[0] || less(xs[0], x))
  {
    assert x in Elements(xs) && xs[0] in Elements(xs);
  }

  lemma TailList<T>(less: (T, T) -> bool, xs: seq<T>, s: set<T>)
    requires Orders(less, s) && xs != [] && ListOf(less, xs, s)
    ensures ListOf(less, xs[1..], s - {xs[0]}) && Orders(less, s - {xs[0]})
  {
    forall i | 0 < i < |xs| ensures xs[i] != xs[0] {
      assert xs[i] in Elements(xs) && less(xs[0], xs[i]);
    }
    assert forall x :: x in xs[1..] <==> x in xs && x != xs[0];
  }

  /** A strict total order lists a set in one way. */
  lemma {:induction false} ListUnique<T>(less: (T, T) -> bool, xs: seq<T>, ys: seq<T>, s: set<T>)
    requires Orders(less, s) && ListOf(less, xs, s) && ListOf(less, ys, s)
    ensures xs == ys
    decreases |xs|
  {
    EmptyElements(xs);
    EmptyElements(ys);
    if xs != [] && ys != [] {
      HeadFirst(less, xs, s, xs[0]) by { assert xs[0] in Elements(xs); }
      HeadFirst(less, ys, s, xs[0]);
      HeadFirst(less, xs, s, ys[0]);
      TailList(less, xs, s);
      TailList(less, ys, s);
      ListUnique(less, xs[1..], ys[1..], s - {xs[0]});
      assert xs == [xs[0]] + xs[1..] && ys == [ys[0]] + ys[1..];
    }
  }

  // ----- insertion -----

  /** The number of elements at the front that x does not come before. */
  function Position<T>(less: (T, T) -> bool, xs: seq<T>, x: T): (k: nat)
    ensures k <= |xs| && (forall i :: 0 <= i < k ==> !less(x, xs[i])) && (k < |xs| ==> less(x, xs[k]))
  {
    if xs == [] || less(x, xs[0]) then 0 else Position(less, xs[1..], x) + 1
  }

  function Insert<T>(less: (T, T) -> bool, xs: seq<T>, x: T): (r: seq<T>) {
    var k := Position(less, xs, x);
    xs[..k] + [x] + xs[k..]
  }

  lemma InsertPasses<T>(less: (T, T) -> bool, xs: seq<T>, x: T)
    requires xs != [] && !less(x, xs[0])
    ensures Insert(less, xs, x) == [xs[0]] + Insert(less, xs[1..], x)
  {
    var k := Position(less, xs[1..], x);
    assert xs[..k + 1] == [xs[0]] + xs[1..][..k] && xs[k + 1..] == xs[1..][k..];
  }

  lemma SplitElements<T>(xs: seq<T>, k: nat, x: T)
    requires k <= |xs|
    ensures Elements(xs[..k] + [x] + xs[k..]) == Elements(xs) + {x}
  {
    var r := xs[..k] + [x] + xs[k..];
    assert xs == xs[..k] + xs[k..];
    assert forall y :: y in r <==> y in xs || y == x;
  }

  /** Splitting an increasing list around x. */
  lemma SplitIncreases<T>(less: (T, T) -> bool, xs: seq<T>, k: nat, x: T)
    requires Increasing(less, xs) && k <= |xs|
    requires forall i :: 0 <= i < k ==> less(xs[i], x)
    requires forall i :: k <= i < |xs| ==> less(x, xs[i])
    ensures Increasing(less, xs[..k] + [x] + xs[k..])
  {
    var r := xs[..k] + [x] + xs[k..];
    forall i, j | 0 <= i < j < |r| ensures less(r[i], r[j]) {
      assert r[i] == (if i < k then xs[i] else if i == k then x else xs[i - 1]);
      assert r[j] == (if j < k then xs[j] else if j == k then x else xs[j - 1]);
    }
  }

  lemma InsertLists<T>(less: (T, T) -> bool, xs: seq<T>, x: T, s: set<T>)
    requires ListOf(less, xs, s) && x !in s && Orders(less, s + {x})
    ensures ListOf(less, Insert(less, xs, x), s + {x})
  {
    var k := Position(less, xs, x);
    forall i | 0 <= i < |xs| ensures xs[i] in s { assert xs[i] in Elements(xs); }
    forall i | k <= i < |xs| ensures less(x, xs[i]) {
      if i > k { assert less(xs[k], xs[i]); }
    }
    SplitIncreases(less, xs, k, x);
    SplitElements(xs, k, x);
  }

  /** Every finite set has its list. */
  ghost function SortedBy<T>(less: (T, T) -> bool, s: set<T>): (xs: seq<T>)
    requires Orders(less, s)
    ensures ListOf(less, xs, s) && |xs| == |s|
  {
    if s == {} then []
    else
      var x :| x in s;
      var rest := SortedBy(less, s - {x});
      assert s - {x} + {x} == s;
      InsertLists(less, rest, x, s - {x});
      Insert(less, rest, x)
  }

  method SortSet<T(==)>(less: (T, T) -> bool, s: set<T>) returns (xs: seq<T>)
    requires Orders(less, s)
    ensures xs == SortedBy(less, s)
  {
    xs := [];
    var left := s;
    while left != {}
      invariant left <= s && ListOf(less, xs, s - left)
      decreases |left|
    {
      var x :| x in left;
      assert s - left + {x} == s - (left - {x});
      InsertLists(less, xs, x, s - left);
      xs := Insert(less, xs, x);
      left := left - {x};
    }
    assert s - left == s;
    ListUnique(less, xs, SortedBy(less, s), s);
  }

  /** A list sorted by inserting its elements one by one. */
  function SortList<T>(less: (T, T) -> bool, xs: seq<T>): (r: seq<T>) {
    if xs == [] then [] else Insert(less, SortList(less, xs[..|xs| - 1]), xs[|xs| - 1])
  }

  ghost predicate Distinct<T>(xs: seq<T>) {
    forall i, j :: 0 <= i < j < |xs| ==> xs[i] != xs[j]
  }

  lemma LastElement<T>(xs: seq<T>)
    requires xs != [] && Distinct(xs)
    ensures Elements(xs) == Elements(xs[..|xs| - 1]) + {xs[|xs| - 1]}
    ensures Distinct(xs[..|xs| - 1]) && xs[|xs| - 1] !in Elements(xs[..|xs| - 1])
  {
    ElementsLast(xs);
  }

  lemma {:induction false} SortListLists<T>(less: (T, T) -> bool, xs: seq<T>)
    requires Distinct(xs) && Orders(less, Elements(xs))
    ensures ListOf(less, SortList(less, xs), Elements(xs)) && |SortList(less, xs)| == |xs|
    decreases |xs|
  {
    if xs != [] {
      var n := |xs| - 1;
      LastElement(xs);
      SortListLists(less, xs[..n]);
      InsertLists(less, SortList(less, xs[..n]), xs[n], Elements(xs[..n]));
    }
  }

  // ----- strings -----

  lemma LessOrders(s: set<string>)
    ensures Orders(Less, s)
  {
    forall a: string, b: string ensures (Less(a, b) ==> !Less(b, a)) && (Less(a, b) || a == b || Less(b, a)) {
      LessTotal(a, b);
    }
    forall a: string, b: string, c: string | Less(a, b) && Less(b, c) ensures Less(a, c) {
      LessTransitive(a, b, c);
    }
  }

  /** The sorted list of a set of strings. */
  ghost function Sorted(s: set<string>): (xs: seq<string>)
    ensures StrictlySorted(xs) && Elements(xs) == s && |xs| == |s|
  {
    LessOrders(s);
    SortedBy(Less, s)
  }

  method SortKeys(s: set<string>) returns (xs: seq<string>)
    ensures xs == Sorted(s)
  {
    LessOrders(s);
    xs := SortSet(Less, s);
  }
}
