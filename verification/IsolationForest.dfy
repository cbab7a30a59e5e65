/** Isolation trees: random splits of a subsample, and the routing of vectors through them.
    Floats are modelled as reals, and the random source as an arbitrary stream. */
module IsolationForest {
  const FEATURES := 8
  const DEFAULT_TREES := 100
  const DEFAULT_SUBSAMPLE := 256

  type Vector = v: seq<real> | |v| == FEATURES witness [0.0, 0.0, 0.0, 0.0, 0.0, 0.0, 0.0, 0.0]

  datatype Tree = Leaf(size: nat) | Node(feature: nat, split: real, left: Tree, right: Tree)

  type Unit = x: real | 0.0 <= x < 1.0

  /** math/rand: whatever the stream, Intn stays below its bound and Float64 in [0, 1). */
  class Rng {
    const ints: nat -> nat
    const floats: nat -> Unit
    var pos: nat

    constructor (ints: nat -> nat, floats: nat -> Unit) {
      this.ints, this.floats, pos := ints, floats, 0;
    }

    method Intn(n: nat) returns (k: nat)
      requires n > 0
      modifies this
      ensures k < n
    {
      k := ints(pos) % n;
      pos := pos + 1;
    }

    method Float64() returns (x: Unit)
      modifies this
    {
      x := floats(pos);
      pos := pos + 1;
    }
  }

  // ----- routing -----

  predicate GoesLeft(t: Tree, v: Vector)
    requires t.Node?
  {
    t.feature < FEATURES && v[t.feature] < t.split
  }

  /** The turns pathLength takes: true is left. */
  function Route(t: Tree, v: Vector): (p: seq<bool>) {
    match t
    case Leaf(_) => []
    case Node(_, _, l, r) => if GoesLeft(t, v) then [true] + Route(l, v) else [false] + Route(r, v)
  }

  /** The leaf at the end of a path, if the path is one. */
  function LeafAt(t: Tree, p: seq<bool>): (size: int)
    ensures size >= -1
  {
    match t
    case Leaf(size) => if p == [] then size else -1
    case Node(_, _, l, r) => if p == [] then -1 else if p[0] then LeafAt(l, p[1..]) else LeafAt(r, p[1..])
  }

  function PathLength(t: Tree, v: Vector, depth: nat, c: nat -> real): (x: real) {
    match t
    case Leaf(size) => depth as real + c(size)
    case Node(_, _, l, r) => if GoesLeft(t, v) then PathLength(l, v, depth + 1, c) else PathLength(r, v, depth + 1, c)
  }

  function Height(t: Tree): (h: nat) {
    match t
    case Leaf(_) => 0
    case Node(_, _, l, r) => 1 + (if Height(l) >= Height(r) then Height(l) else Height(r))
  }

  function LeafSum(t: Tree): (n: nat) {
    match t
    case Leaf(size) => size
    case Node(_, _, l, r) => LeafSum(l) + LeafSum(r)
  }

  /** How many vectors take a path. */
  function Routed(t: Tree, vs: seq<Vector>, p: seq<bool>): (n: nat) {
    if vs == [] then 0
    else Routed(t, vs[..|vs| - 1], p) + (if Route(t, vs[|vs| - 1]) == p then 1 else 0)
  }

  // ----- growing -----

  function Lefts(t: Tree, vs: seq<Vector>): (ls: seq<Vector>)
    requires t.Node?
  {
    if vs == [] then []
    else Lefts(t, vs[..|vs| - 1]) + (if GoesLeft(t, vs[|vs| - 1]) then [vs[|vs| - 1]] else [])
  }

  function Rights(t: Tree, vs: seq<Vector>): (rs: seq<Vector>)
    requires t.Node?
  {
    if vs == [] then []
    else Rights(t, vs[..|vs| - 1]) + (if GoesLeft(t, vs[|vs| - 1]) then [] else [vs[|vs| - 1]])
  }

  /** A tree grown from a subsample: leaves count their share, splits partition it, and only
      a left share can be empty. */
  ghost predicate Grown(t: Tree, vs: seq<Vector>) {
    match t
    case Leaf(size) => size == |vs|
    case Node(feature, _, l, r) =>
      feature < FEATURES && Rights(t, vs) != [] && Grown(l, Lefts(t, vs)) && Grown(r, Rights(t, vs))
  }

  lemma {:induction false} Partition(t: Tree, vs: seq<Vector>)
    requires t.Node?
    ensures |Lefts(t, vs)| + |Rights(t, vs)| == |vs|
  {
    if vs != [] { Partition(t, vs[..|vs| - 1]); }
  }

  /** A vector goes left exactly when its feature is below the split. */
  lemma {:induction false} SharesExactly(t: Tree, vs: seq<Vector>, v: Vector)
    requires t.Node? && t.feature < FEATURES
    ensures v in Lefts(t, vs) <==> v in vs && v[t.feature] < t.split
    ensures v in Rights(t, vs) <==> v in vs && v[t.feature] >= t.split
  {
    if vs != [] {
      assert vs == vs[..|vs| - 1] + [vs[|vs| - 1]];
      SharesExactly(t, vs[..|vs| - 1], v);
    }
  }

  lemma {:induction false} RightsMember(t: Tree, vs: seq<Vector>, i: nat)
    requires t.Node? && i < |vs| && !GoesLeft(t, vs[i])
    ensures vs[i] in Rights(t, vs)
  {
    if i < |vs| - 1 { RightsMember(t, vs[..|vs| - 1], i); }
  }

  method FeatureRange(vs: seq<Vector>, feature: nat) returns (low: real, high: real)
    requires vs != [] && feature < FEATURES
    ensures forall i :: 0 <= i < |vs| ==> low <= vs[i][feature] <= high
    ensures exists i :: 0 <= i < |vs| && vs[i][feature] == low
    ensures exists i :: 0 <= i < |vs| && vs[i][feature] == high
  {
    low, high := vs[0][feature], vs[0][feature];
    for i := 0 to |vs|
      invariant forall j :: 0 <= j < i ==> low <= vs[j][feature] <= high
      invariant exists j :: 0 <= j < |vs| && vs[j][feature] == low
      invariant exists j :: 0 <= j < |vs| && vs[j][feature] == high
    {
      if vs[i][feature] < low { low := vs[i][feature]; }
      if vs[i][feature] > high { high := vs[i][feature]; }
    }
  }

  method Split(t: Tree, vs: seq<Vector>) returns (left: seq<Vector>, right: seq<Vector>)
    requires t.Node? && t.feature < FEATURES
    ensures left == Lefts(t, vs) && right == Rights(t, vs)
  {
    left, right := [], [];
    for i := 0 to |vs|
      invariant left == Lefts(t, vs[..i]) && right == Rights(t, vs[..i])
    {
      assert vs[..i + 1][..i] == vs[..i];
      if vs[i][t.feature] < t.split { left := left + [vs[i]]; } else { right := right + [vs[i]]; }
    }
    assert vs[..|vs|] == vs;
  }

  lemma Scaled(u: real, d: real)
    requires 0.0 <= u < 1.0 && d > 0.0
    ensures 0.0 <= u * d < d
  {
  }

  /** The split point of a range of width `span`: below the high end. */
  function SplitPoint(low: real, span: real, u: real): (x: real)
    requires span > 0.0 && 0.0 <= u < 1.0
    ensures low <= x < low + span
  {
    Scaled(u, span);
    low + u * span
  }

  /** Under any random choices the tree is grown from the subsample, within the depth. */
  method BuildTree(vs: seq<Vector>, depth: nat, maxDepth: nat, source: Rng) returns (t: Tree)
    modifies source
    ensures Grown(t, vs) && Height(t) <= (if depth <= maxDepth then maxDepth - depth else 0)
    ensures Height(t) > 0 ==> |vs| > 1
    decreases maxDepth - depth
  {
    if depth >= maxDepth || |vs| <= 1 { return Leaf(|vs|); }
    var feature := source.Intn(FEATURES);
    var low, high := FeatureRange(vs, feature);
    if low == high { return Leaf(|vs|); }
    var u := source.Float64();
    ghost var i :| 0 <= i < |vs| && vs[i][feature] == high;
    var shape := Node(feature, SplitPoint(low, high - low, u), Leaf(0), Leaf(0));
    var left, right := Split(shape, vs);
    var l := BuildTree(left, depth + 1, maxDepth, source);
    var r := BuildTree(right, depth + 1, maxDepth, source);
    t := Node(feature, shape.split, l, r);
    SameSplit(shape, t, vs);
    RightsMember(t, vs, i);
  }

  lemma {:induction false} SameSplit(s: Tree, t: Tree, vs: seq<Vector>)
    requires s.Node? && t.Node? && s.feature == t.feature && s.split == t.split
    ensures Lefts(s, vs) == Lefts(t, vs) && Rights(s, vs) == Rights(t, vs)
  {
    if vs != [] { SameSplit(s, t, vs[..|vs| - 1]); }
  }

  // ----- what a grown tree knows about its subsample -----

  /** Leaf sizes sum to the subsample. */
  lemma {:induction false} LeavesSum(t: Tree, vs: seq<Vector>)
    requires Grown(t, vs)
    ensures LeafSum(t) == |vs|
  {
    if t.Node? {
      LeavesSum(t.left, Lefts(t, vs));
      LeavesSum(t.right, Rights(t, vs));
      Partition(t, vs);
    }
  }

  lemma RouteStarts(t: Tree, v: Vector, p: seq<bool>)
    requires t.Node?
    ensures Route(t, v) == [true] + p <==> GoesLeft(t, v) && Route(t.left, v) == p
    ensures Route(t, v) == [false] + p <==> !GoesLeft(t, v) && Route(t.right, v) == p
  {
    assert Route(t, v)[1..] == if GoesLeft(t, v) then Route(t.left, v) else Route(t.right, v);
    assert ([true] + p)[1..] == p && ([false] + p)[1..] == p;
    assert ([true] + p)[0] && !([false] + p)[0];
  }

  lemma RoutedSnoc(t: Tree, vs: seq<Vector>, v: Vector, p: seq<bool>)
    ensures Routed(t, vs + [v], p) == Routed(t, vs, p) + (if Route(t, v) == p then 1 else 0)
  {
    assert (vs + [v])[..|vs|] == vs;
  }

  lemma {:induction false} RoutedSplits(t: Tree, vs: seq<Vector>, p: seq<bool>)
    requires t.Node?
    ensures Routed(t, vs, [true] + p) == Routed(t.left, Lefts(t, vs), p)
    ensures Routed(t, vs, [false] + p) == Routed(t.right, Rights(t, vs), p)
    ensures Routed(t, vs, []) == 0
  {
    if vs != [] {
      var init, last := vs[..|vs| - 1], vs[|vs| - 1];
      RoutedSplits(t, init, p);
      RouteStarts(t, last, p);
      RoutedSnoc(t.left, Lefts(t, init), last, p);
      RoutedSnoc(t.right, Rights(t, init), last, p);
      assert Lefts(t, init) + [] == Lefts(t, init) && Rights(t, init) + [] == Rights(t, init);
    }
  }

  lemma {:induction false} AllRoutedToLeaf(size: nat, vs: seq<Vector>, p: seq<bool>)
    ensures Routed(Leaf(size), vs, p) == if p == [] then |vs| else 0
  {
    if vs != [] { AllRoutedToLeaf(size, vs[..|vs| - 1], p); }
  }

  lemma OneTurn(t: Tree, vs: seq<Vector>, p: seq<bool>)
    requires t.Node? && p != []
    ensures p[0] ==> Routed(t, vs, p) == Routed(t.left, Lefts(t, vs), p[1..])
    ensures !p[0] ==> Routed(t, vs, p) == Routed(t.right, Rights(t, vs), p[1..])
  {
    RoutedSplits(t, vs, p[1..]);
    assert p == [p[0]] + p[1..];
  }

  /** Each leaf's size is exactly the number of subsample vectors routed to it; paths that
      end at no leaf are taken by none. */
  lemma {:induction false} LeafCountsItsVectors(t: Tree, vs: seq<Vector>, p: seq<bool>)
    requires Grown(t, vs)
    ensures Routed(t, vs, p) == if LeafAt(t, p) >= 0 then LeafAt(t, p) else 0
    decreases t
  {
    if t.Leaf? {
      AllRoutedToLeaf(t.size, vs, p);
    } else if p == [] {
      RoutedSplits(t, vs, p);
    } else {
      OneTurn(t, vs, p);
      if p[0] {
        LeafCountsItsVectors(t.left, Lefts(t, vs), p[1..]);
      } else {
        LeafCountsItsVectors(t.right, Rights(t, vs), p[1..]);
      }
    }
  }

  /** The path length of a vector is the length of its route, corrected by the size of the
      leaf it ends in; and the route does end in a leaf. */
  lemma {:induction false} PathLengthIsRoute(t: Tree, v: Vector, depth: nat, c: nat -> real)
    ensures LeafAt(t, Route(t, v)) >= 0 && |Route(t, v)| <= Height(t)
    ensures PathLength(t, v, depth, c) == (depth + |Route(t, v)|) as real + c(LeafAt(t, Route(t, v)))
    decreases t
  {
    match t
    case Leaf(_) =>
    case Node(_, _, l, r) =>
      if GoesLeft(t, v) {
        PathLengthIsRoute(l, v, depth + 1, c);
        assert Route(t, v)[1..] == Route(l, v);
      } else {
        PathLengthIsRoute(r, v, depth + 1, c);
        assert Route(t, v)[1..] == Route(r, v);
      }
  }

  // ----- the forest -----

  /** The least d with 2^d >= n. */
  function CeilLog2(n: nat): (d: nat)
    decreases n
  {
    if n <= 1 then 0 else 1 + CeilLog2((n + 1) / 2)
  }

  function Pow2(d: nat): (n: nat) {
    if d == 0 then 1 else 2 * Pow2(d - 1)
  }

  lemma {:induction false} CeilLog2Exact(n: nat)
    requires n >= 1
    ensures Pow2(CeilLog2(n)) >= n && (n > 1 ==> Pow2(CeilLog2(n) - 1) < n)
  {
    if n > 1 {
      CeilLog2Exact((n + 1) / 2);
    }
  }

  ghost predicate DrawnFrom(sub: seq<Vector>, samples: seq<Vector>, size: nat) {
    |sub| == size && forall i :: 0 <= i < |sub| ==> sub[i] in samples
  }

  ghost predicate TreeOfSamples(t: Tree, samples: seq<Vector>, size: nat, maxDepth: nat) {
    Height(t) <= maxDepth && exists sub :: DrawnFrom(sub, samples, size) && Grown(t, sub)
  }

  method SubsampleOf(samples: seq<Vector>, size: nat, source: Rng) returns (out: seq<Vector>)
    requires samples != []
    modifies source
    ensures DrawnFrom(out, samples, size)
  {
    out := [];
    for i := 0 to size
      invariant DrawnFrom(out, samples, i)
    {
      var k := source.Intn(|samples|);
      out := out + [samples[k]];
    }
  }

  function SubsampleSize(samples: nat, requested: int): (n: nat) {
    var n := if requested <= 0 then DEFAULT_SUBSAMPLE else requested;
    if n > samples then samples else n
  }

  function MaxDepth(size: nat): (d: nat) {
    if CeilLog2(size) < 1 then 1 else CeilLog2(size)
  }

  /** The least depth that holds them all apart, and at least one. */
  lemma MaxDepthExactly(size: nat)
    requires size >= 1
    ensures MaxDepth(size) >= 1 && Pow2(MaxDepth(size)) >= size
    ensures MaxDepth(size) > 1 ==> Pow2(MaxDepth(size) - 1) < size
  {
    CeilLog2Exact(size);
  }

  /** Every tree of the forest is grown from its own subsample, within the depth bound. */
  method BuildForest(samples: seq<Vector>, numTrees: int, subsample: int, source: Rng) returns (trees: seq<Tree>)
    modifies source
    ensures samples == [] ==> trees == []
    ensures samples != [] ==> |trees| == if numTrees <= 0 then DEFAULT_TREES else numTrees
    ensures
      var asked := if subsample > 0 then subsample else 256;
      var size := if asked < |samples| then asked else |samples|;
      forall i :: 0 <= i < |trees| ==> TreeOfSamples(trees[i], samples, size, MaxDepth(size))
  {
    trees := [];
    if samples == [] { return; }
    var n := if numTrees <= 0 then DEFAULT_TREES else numTrees;
    var size := SubsampleSize(|samples|, subsample);
    for k := 0 to n
      invariant |trees| == k
      invariant forall i :: 0 <= i < |trees| ==> TreeOfSamples(trees[i], samples, size, MaxDepth(size))
    {
      var sub := SubsampleOf(samples, size, source);
      var t := BuildTree(sub, 0, MaxDepth(size), source);
      assert DrawnFrom(sub, samples, size) && Grown(t, sub);
      trees := trees + [t];
    }
  }
}
