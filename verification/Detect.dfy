/** The detection engine's condition trees: classification, leaf operators, evaluation. */
module Detect {
  import opened Text
  import opened Model
  import opened Stdlib

  /** A rule value as the loader sees it. */
  datatype Value = Int(n: int) | Float(x: real) | Str(s: string) | Bool(b: bool) | List(vs: seq<Value>) | Nil

  /** A match node: exactly one of all / any / not / leaf must be set (see Classify). */
  datatype Condition = Condition(
    all: seq<Condition>, any: seq<Condition>, not: Option<Condition>,
    field: FieldPath, op: RuleOp, value: Value)

  /** The operator names a leaf may carry; NoOp is the empty string. */
  datatype RuleOp =
    | NoOp | OpExists | OpEq | OpNe | OpIn | OpNotIn | OpContains | OpStartsWith | OpEndsWith
    | OpRegex | OpGt | OpLt | OpGe | OpLe | OpCidr | OpUnknown(name: string)

  datatype Kind = KindLeaf | KindAll | KindAny | KindNot

  function Leaf(field: FieldPath, op: RuleOp, value: Value): Condition {
    Condition([], [], None, field, op, value)
  }

  function AllGroup(cs: seq<Condition>): Condition {
    Condition(cs, [], None, NoField, NoOp, Nil)
  }

  function AnyGroup(cs: seq<Condition>): Condition {
    Condition([], cs, None, NoField, NoOp, Nil)
  }

  function NotNode(c: Condition): Condition {
    Condition([], [], Some(c), NoField, NoOp, Nil)
  }

  function KindCount(c: Condition): (n: nat) {
    (if |c.all| > 0 then 1 else 0) + (if |c.any| > 0 then 1 else 0) +
    (if c.not.Some? then 1 else 0) + (if c.field != NoField || c.op != NoOp then 1 else 0)
  }

  /** A node must be exactly one of the four kinds. */
  function Classify(c: Condition): (r: Result<Kind>) {
    if KindCount(c) != 1 then Err
    else if |c.all| > 0 then Ok(KindAll)
    else if |c.any| > 0 then Ok(KindAny)
    else if c.not.Some? then Ok(KindNot)
    else Ok(KindLeaf)
  }

  // ----- leaf operators (internal/detect/operators.go) -----

  function ToText(lib: Lib, v: Value): (s: string)
    decreases v
  {
    match v
    case Int(n) => FormatInt(n)
    case Float(x) => lib.sprintFloat(x)
    case Str(s) => s
    case Bool(b) => if b then "true" else "false"
    case List(vs) => "[" + ListText(lib, vs) + "]"
    case Nil => "<nil>"
  }

  function ListText(lib: Lib, vs: seq<Value>): (s: string)
    decreases vs
  {
    if vs == [] then "" else if |vs| == 1 then ToText(lib, vs[0]) else ToText(lib, vs[0]) + " " + ListText(lib, vs[1..])
  }

  function ToBool(v: Value): (r: Option<bool>) {
    match v
    case Bool(b) => Some(b)
    case Str(s) =>
      if s in {"1", "t", "T", "TRUE", "true", "True"} then Some(true)
      else if s in {"0", "f", "F", "FALSE", "false", "False"} then Some(false)
      else None
    case _ => None
  }

  function Truncate(x: real): (n: int) {
    if x >= 0.0 then x.Floor else -((-x).Floor)
  }

  /** int64(x): truncation toward zero; out of range, the amd64 result. */
  function FloatToInt64(x: real): (n: int) {
    var n := Truncate(x);
    if MIN_INT64 <= n <= MAX_INT64 then n else MIN_INT64
  }

  function ToInt64(v: Value): (r: Option<int>) {
    match v
    case Int(n) => Some(n)
    case Float(x) => Some(FloatToInt64(x))
    case Str(s) => ParseInt(s)
    case _ => None
  }

  predicate ValuesEqual(lib: Lib, actual: FieldValue, want: Value) {
    match actual
    case StrValue(s) => s == ToText(lib, want)
    case BoolValue(b) => ToBool(want) == Some(b)
    case IntValue(n) => ToInt64(want) == Some(n)
  }

  predicate CompareInt(op: RuleOp, n: int, want: int) {
    match op
    case OpGt => n > want
    case OpLt => n < want
    case OpGe => n >= want
    case _ => n <= want
  }

  /** Whether compileLeaf accepts the triple. */
  predicate LeafCompiles(lib: Lib, field: FieldPath, op: RuleOp, value: Value) {
    KnownField(field) &&
    match op
    case OpExists => true
    case OpEq => true
    case OpNe => true
    case OpIn => value.List?
    case OpNotIn => value.List?
    case OpContains => true
    case OpStartsWith => true
    case OpEndsWith => true
    case OpRegex => lib.regexOk(ToText(lib, value))
    case OpGt => ToInt64(value).Some?
    case OpLt => ToInt64(value).Some?
    case OpGe => ToInt64(value).Some?
    case OpLe => ToInt64(value).Some?
    case OpCidr => lib.cidrOk(ToText(lib, value))
    case _ => false
  }

  predicate InList(lib: Lib, actual: FieldValue, want: Value) {
    want.List? && exists i :: 0 <= i < |want.vs| && ValuesEqual(lib, actual, want.vs[i])
  }

  /** The compiled leaf predicate, on the field's value. */
  ghost predicate LeafTest(lib: Lib, op: RuleOp, want: Value, raw: Option<FieldValue>) {
    match op
    case OpExists => raw.Some?
    case OpEq => raw.Some? && ValuesEqual(lib, raw.value, want)
    case OpNe => raw.None? || !ValuesEqual(lib, raw.value, want)
    case OpIn => raw.Some? && InList(lib, raw.value, want)
    case OpNotIn => raw.None? || !InList(lib, raw.value, want)
    case OpContains => raw.Some? && raw.value.StrValue? && Contains(raw.value.s, ToText(lib, want))
    case OpStartsWith => raw.Some? && raw.value.StrValue? && HasPrefix(raw.value.s, ToText(lib, want))
    case OpEndsWith => raw.Some? && raw.value.StrValue? && HasSuffix(raw.value.s, ToText(lib, want))
    case OpRegex => raw.Some? && raw.value.StrValue? && lib.regexMatch(ToText(lib, want), raw.value.s)
    case OpCidr => raw.Some? && raw.value.StrValue? && lib.cidrMatch(ToText(lib, want), raw.value.s)
    case _ =>
      raw.Some? && raw.value.IntValue? && ToInt64(want).Some? && CompareInt(op, raw.value.n, ToInt64(want).value)
  }

  /** A fraction is cut off toward zero. */
  lemma TruncatesTowardZero(x: real)
    ensures x >= 0.0 ==> 0.0 <= Truncate(x) as real <= x < Truncate(x) as real + 1.0
    ensures x <= 0.0 ==> Truncate(x) as real - 1.0 < x <= Truncate(x) as real <= 0.0
  {
  }

  /** Texts are equal as texts, integers as integers and truth values as such; a text stands for
      the number or the truth value it spells, and a number for its decimal. */
  lemma EqualityInWords(lib: Lib, s: string, n: int, b: bool, want: Value)
    ensures want.Str? ==> (ValuesEqual(lib, StrValue(s), want) <==> s == want.s)
    ensures want.Int? ==> (ValuesEqual(lib, StrValue(s), want) <==> s == FormatInt(want.n))
    ensures want == Bool(true) ==> (ValuesEqual(lib, StrValue(s), want) <==> s == "true")
    ensures want == Bool(false) ==> (ValuesEqual(lib, StrValue(s), want) <==> s == "false")
    ensures want.Nil? ==> (ValuesEqual(lib, StrValue(s), want) <==> s == "<nil>")
    ensures want.Int? ==> (ValuesEqual(lib, IntValue(n), want) <==> n == want.n)
    ensures want.Str? ==> (ValuesEqual(lib, IntValue(n), want) <==> ParseInt(want.s) == Some(n))
    ensures want.Bool? ==> (ValuesEqual(lib, BoolValue(b), want) <==> b == want.b)
    ensures want.Bool? || want.List? || want.Nil? ==> !ValuesEqual(lib, IntValue(n), want)
    ensures want.Int? || want.Float? || want.List? || want.Nil? ==> !ValuesEqual(lib, BoolValue(b), want)
  {
  }

  /** `ne` and `not_in` are the negations of `eq` and `in`, on absent fields too. */
  lemma NegatedOps(lib: Lib, want: Value, raw: Option<FieldValue>)
    ensures LeafTest(lib, OpNe, want, raw) <==> !LeafTest(lib, OpEq, want, raw)
    ensures LeafTest(lib, OpNotIn, want, raw) <==> !LeafTest(lib, OpIn, want, raw)
  {
  }

  /** `in` is `eq` with one of the listed values. */
  lemma InIsSomeEqual(lib: Lib, vs: seq<Value>, raw: Option<FieldValue>)
    ensures LeafTest(lib, OpIn, List(vs), raw) <==> exists i :: 0 <= i < |vs| && LeafTest(lib, OpEq, vs[i], raw)
  {
    if raw.Some? && InList(lib, raw.value, List(vs)) {
      var i :| 0 <= i < |vs| && ValuesEqual(lib, raw.value, vs[i]);
      assert LeafTest(lib, OpEq, vs[i], raw);
    }
  }

  /** An absent field passes only the negations, and only `exists` asks for nothing more. */
  lemma AbsentPassesNegations(lib: Lib, op: RuleOp, want: Value)
    ensures LeafTest(lib, op, want, None) <==> op in {OpNe, OpNotIn}
    ensures forall raw :: LeafTest(lib, OpExists, want, raw) <==> raw.Some?
  {
  }

  /** A network is tested on the text of an address, and on nothing else. */
  lemma CidrTestsText(lib: Lib, network: string, raw: Option<FieldValue>)
    ensures LeafTest(lib, OpCidr, Str(network), raw) <==>
            raw.Some? && raw.value.StrValue? && lib.cidrMatch(network, raw.value.s)
  {
  }

  /** The orderings compare integers, and complement each other on them. */
  lemma OrderingsComplement(lib: Lib, want: Value, n: int)
    requires ToInt64(want).Some?
    ensures LeafTest(lib, OpGt, want, Some(IntValue(n))) <==> n > ToInt64(want).value
    ensures LeafTest(lib, OpLe, want, Some(IntValue(n))) <==> !LeafTest(lib, OpGt, want, Some(IntValue(n)))
    ensures LeafTest(lib, OpGe, want, Some(IntValue(n))) <==> !LeafTest(lib, OpLt, want, Some(IntValue(n)))
    ensures LeafTest(lib, OpEq, want, Some(IntValue(n))) <==>
            LeafTest(lib, OpGe, want, Some(IntValue(n))) && LeafTest(lib, OpLe, want, Some(IntValue(n)))
  {
  }

  // ----- whole trees (internal/detect/condition.go) -----

  predicate Compiles(lib: Lib, c: Condition) {
    match Classify(c)
    case Err => false
    case Ok(KindAll) => forall i :: 0 <= i < |c.all| ==> Compiles(lib, c.all[i])
    case Ok(KindAny) => forall i :: 0 <= i < |c.any| ==> Compiles(lib, c.any[i])
    case Ok(KindNot) => c.not.Some? && Compiles(lib, c.not.value)
    case Ok(KindLeaf) => LeafCompiles(lib, c.field, c.op, c.value)
  }

  type LeafMeaning = (FieldPath, RuleOp, Value) -> bool

  /** The truth of a tree, given the truth of its leaves. */
  ghost predicate Holds(c: Condition, leaf: LeafMeaning) {
    match Classify(c)
    case Err => false
    case Ok(KindAll) => forall i :: 0 <= i < |c.all| ==> Holds(c.all[i], leaf)
    case Ok(KindAny) => exists i :: 0 <= i < |c.any| && Holds(c.any[i], leaf)
    case Ok(KindNot) => c.not.Some? && !Holds(c.not.value, leaf)
    case Ok(KindLeaf) => leaf(c.field, c.op, c.value)
  }

  ghost function OnEvent(lib: Lib, e: Event): LeafMeaning {
    (field, op, value) => LeafTest(lib, op, value, Field(e, field))
  }

  ghost predicate EvalCondition(lib: Lib, c: Condition, e: Event) {
    Holds(c, OnEvent(lib, e))
  }

  ghost predicate AllHold(cs: seq<Condition>, leaf: LeafMeaning) {
    forall i :: 0 <= i < |cs| ==> Holds(cs[i], leaf)
  }

  ghost predicate AnyHolds(cs: seq<Condition>, leaf: LeafMeaning) {
    exists i :: 0 <= i < |cs| && Holds(cs[i], leaf)
  }

  ghost predicate AllCompile(lib: Lib, cs: seq<Condition>) {
    forall i :: 0 <= i < |cs| ==> Compiles(lib, cs[i])
  }

  // The meaning of each shape of node, so that proofs need not unfold classification.

  lemma LeafHolds(lib: Lib, field: FieldPath, op: RuleOp, value: Value, e: Event)
    requires field != NoField
    ensures Compiles(lib, Leaf(field, op, value)) == LeafCompiles(lib, field, op, value)
    ensures EvalCondition(lib, Leaf(field, op, value), e) == LeafTest(lib, op, value, Field(e, field))
  {
  }

  lemma NotHolds(lib: Lib, c: Condition, leaf: LeafMeaning)
    ensures Holds(NotNode(c), leaf) == !Holds(c, leaf)
    ensures Compiles(lib, NotNode(c)) == Compiles(lib, c)
  {
  }

  lemma AllGroupHolds(lib: Lib, cs: seq<Condition>, leaf: LeafMeaning)
    requires cs != []
    ensures Holds(AllGroup(cs), leaf) == AllHold(cs, leaf)
    ensures Compiles(lib, AllGroup(cs)) == AllCompile(lib, cs)
  {
  }

  lemma AnyGroupHolds(lib: Lib, cs: seq<Condition>, leaf: LeafMeaning)
    requires cs != []
    ensures Holds(AnyGroup(cs), leaf) == AnyHolds(cs, leaf)
    ensures Compiles(lib, AnyGroup(cs)) == AllCompile(lib, cs)
  {
  }

  lemma AllHoldConcat(cs: seq<Condition>, ds: seq<Condition>, leaf: LeafMeaning)
    ensures AllHold(cs + ds, leaf) == (AllHold(cs, leaf) && AllHold(ds, leaf))
  {
    var s := cs + ds;
    assert forall i :: 0 <= i < |cs| ==> s[i] == cs[i];
    assert forall i :: 0 <= i < |ds| ==> s[|cs| + i] == ds[i];
  }

  lemma AnyHoldsConcat(cs: seq<Condition>, ds: seq<Condition>, leaf: LeafMeaning)
    ensures AnyHolds(cs + ds, leaf) == (AnyHolds(cs, leaf) || AnyHolds(ds, leaf))
  {
    var s := cs + ds;
    assert forall i :: 0 <= i < |cs| ==> s[i] == cs[i];
    assert forall i :: 0 <= i < |ds| ==> s[|cs| + i] == ds[i];
  }

  lemma AllCompileConcat(lib: Lib, cs: seq<Condition>, ds: seq<Condition>)
    ensures AllCompile(lib, cs + ds) == (AllCompile(lib, cs) && AllCompile(lib, ds))
  {
    var s := cs + ds;
    assert forall i :: 0 <= i < |cs| ==> s[i] == cs[i];
    assert forall i :: 0 <= i < |ds| ==> s[|cs| + i] == ds[i];
  }

  lemma OneHolds(c: Condition, leaf: LeafMeaning)
    ensures AllHold([c], leaf) == Holds(c, leaf) && AnyHolds([c], leaf) == Holds(c, leaf)
  {
    assert [c][0] == c;
  }
}
