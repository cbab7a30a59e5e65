/** Promoting a hunt to a detection rule: the translation of a query to a condition
    tree, and exactly when the two engines agree on it. */
module HuntRule {
  import opened Text
  import opened Model
  import opened EventFields
  import opened Stdlib
  import opened Arql
  import opened Detect

  // ----- the translation (internal/hunt/torule.go) -----

  function ToRuleOp(op: Op): (r: RuleOp) {
    match op
    case Eq => OpEq
    case Ne => OpNe
    case Gt => OpGt
    case Lt => OpLt
    case Ge => OpGe
    case Le => OpLe
    case Like => OpRegex
    case Has => OpContains
    case Starts => OpStartsWith
    case Ends => OpEndsWith
    case In => OpIn
  }

  /** A number stays numeric (an integer when it is one), everything else is a string. */
  function RuleLiteral(v: Literal): (r: Value) {
    if !v.isNum then Str(v.text)
    else if v.num == v.num.Floor as real && MIN_INT64 <= v.num.Floor <= MAX_INT64 then Int(v.num.Floor)
    else Float(v.num)
  }

  function RuleLiterals(vs: seq<Literal>): (r: seq<Value>)
    ensures |r| == |vs| && forall i :: 0 <= i < |vs| ==> r[i] == RuleLiteral(vs[i])
  {
    seq(|vs|, i requires 0 <= i < |vs| => RuleLiteral(vs[i]))
  }

  function RuleValue(c: Comparison): (r: Value) {
    if c.op == In then List(RuleLiterals(c.values)) else RuleLiteral(c.value)
  }

  function ToCond(x: Expr): (c: Condition)
    decreases x, 2
  {
    match x
    case And(_, _) => AllGroup(FlattenAnd(x))
    case Or(_, _) => AnyGroup(FlattenOr(x))
    case Not(i) => NotNode(ToCond(i))
    case Compare(c) => Leaf(c.field, ToRuleOp(c.op), RuleValue(c))
  }

  function FlattenAnd(x: Expr): (cs: seq<Condition>)
    ensures cs != []
    decreases x, if x.And? then 1 else 3
  {
    if x.And? then FlattenAnd(x.left) + FlattenAnd(x.right) else [ToCond(x)]
  }

  function FlattenOr(x: Expr): (cs: seq<Condition>)
    ensures cs != []
    decreases x, if x.Or? then 1 else 3
  {
    if x.Or? then FlattenOr(x.left) + FlattenOr(x.right) else [ToCond(x)]
  }

  function PipeFilters(pipes: seq<Pipe>): (xs: seq<Expr>) {
    if pipes == [] then []
    else AsSeq(PipeFilter(pipes[0])) + PipeFilters(pipes[1..])
  }

  /** The filters of a simple query, in order: the where clause, then the pipes. */
  function Filters(q: Query): (xs: seq<Expr>)
    requires q.Simple?
  {
    AsSeq(q.filter) + PipeFilters(q.pipes)
  }

  function ClassGuard(k: ClassRef): (cs: seq<Condition>) {
    if k.Class? then [Leaf(EventType, OpEq, Str(k.action))] else []
  }

  function ToConds(xs: seq<Expr>): (cs: seq<Condition>)
    ensures |cs| == |xs| && forall i :: 0 <= i < |xs| ==> cs[i] == ToCond(xs[i])
  {
    seq(|xs|, i requires 0 <= i < |xs| => ToCond(xs[i]))
  }

  function Assemble(conds: seq<Condition>): (c: Condition) {
    if |conds| == 0 then Leaf(EventAction, OpExists, Nil)
    else if |conds| == 1 then conds[0]
    else AllGroup(conds)
  }

  function TreeOf(q: Query): (c: Condition)
    requires q.Simple?
  {
    Assemble(ClassGuard(q.class_) + ToConds(Filters(q)))
  }

  /** The source's loop over the class, the filter and the pipes. */
  method MatchTree(q: Query) returns (c: Condition)
    requires q.Simple?
    ensures c == TreeOf(q)
  {
    var conds := ClassGuard(q.class_);
    if q.filter.Some? {
      conds := conds + [ToCond(q.filter.value)];
    }
    ghost var xs := AsSeq(q.filter);
    for i := 0 to |q.pipes|
      invariant xs + PipeFilters(q.pipes[i..]) == Filters(q)
      invariant conds == ClassGuard(q.class_) + ToConds(xs)
    {
      PipeFiltersStep(q.pipes, i);
      if q.pipes[i].Where? {
        var x := q.pipes[i].filter;
        conds := conds + [ToCond(x)];
        ToCondsSnoc(xs, x);
        assert (xs + [x]) + PipeFilters(q.pipes[i + 1..]) == xs + ([x] + PipeFilters(q.pipes[i + 1..]));
        xs := xs + [x];
      }
    }
    assert xs == Filters(q);
    c := Assemble(conds);
  }

  lemma PipeFiltersStep(pipes: seq<Pipe>, i: nat)
    requires i < |pipes|
    ensures PipeFilters(pipes[i..]) == AsSeq(PipeFilter(pipes[i])) + PipeFilters(pipes[i + 1..])
  {
    assert pipes[i..][1..] == pipes[i + 1..];
  }

  lemma ToCondsSnoc(xs: seq<Expr>, x: Expr)
    ensures ToConds(xs + [x]) == ToConds(xs) + [ToCond(x)]
  {
  }

  // ----- what a literal denotes on a field -----

  /** What the parser guarantees of a number token. */
  predicate WellFormed(v: Literal) {
    v.isNum ==> v.text != "" && v.num >= 0.0
  }

  ghost predicate WellFormedComparison(c: Comparison) {
    KnownField(c.field) && WellFormedLiterals(c)
  }

  ghost predicate WellFormedLiterals(c: Comparison) {
    WellFormed(c.value) && forall i :: 0 <= i < |c.values| ==> WellFormed(c.values[i])
  }

  /** The one value of type `t` that `==` accepts in the hunt engine, if there is one. */
  function HuntDenotes(lib: Lib, t: FieldType, v: Literal): (r: Option<FieldValue>) {
    var candidate :=
      match t
      case StringField(_) => Some(StrValue(LiteralText(lib, v)))
      case IntField(_, _, _) =>
        var x := AsNumber(lib, v);
        if x.Some? && x.value == x.value.Floor as real then Some(IntValue(x.value.Floor)) else None
      case BoolField =>
        if v.text == "true" then Some(BoolValue(true)) else if v.text == "false" then Some(BoolValue(false)) else None;
    if candidate.Some? && Inhabits(candidate.value, t) then candidate else None
  }

  /** The one value of type `t` that `eq` accepts in the rule engine, if there is one. */
  function RuleDenotes(lib: Lib, t: FieldType, v: Literal): (r: Option<FieldValue>) {
    var w := RuleLiteral(v);
    var candidate :=
      match t
      case StringField(_) => Some(StrValue(ToText(lib, w)))
      case IntField(_, _, _) => if ToInt64(w).Some? then Some(IntValue(ToInt64(w).value)) else None
      case BoolField => if ToBool(w).Some? then Some(BoolValue(ToBool(w).value)) else None;
    if candidate.Some? && Inhabits(candidate.value, t) then candidate else None
  }

  lemma HuntEqualityIsDenotation(lib: Lib, t: FieldType, v: Literal, raw: FieldValue)
    requires Inhabits(raw, t)
    ensures ValueEquals(lib, raw, v) <==> HuntDenotes(lib, t, v) == Some(raw)
  {
  }

  lemma RuleEqualityIsDenotation(lib: Lib, t: FieldType, v: Literal, raw: FieldValue)
    requires Inhabits(raw, t)
    ensures ValuesEqual(lib, raw, RuleLiteral(v)) <==> RuleDenotes(lib, t, v) == Some(raw)
  {
  }

  ghost function HuntDenotations(lib: Lib, t: FieldType, vs: seq<Literal>): set<FieldValue> {
    set i | 0 <= i < |vs| && HuntDenotes(lib, t, vs[i]).Some? :: HuntDenotes(lib, t, vs[i]).value
  }

  ghost function RuleDenotations(lib: Lib, t: FieldType, vs: seq<Literal>): set<FieldValue> {
    set i | 0 <= i < |vs| && RuleDenotes(lib, t, vs[i]).Some? :: RuleDenotes(lib, t, vs[i]).value
  }

  lemma HuntInIsMembership(lib: Lib, t: FieldType, c: Comparison, raw: FieldValue)
    requires c.op == In && Inhabits(raw, t)
    ensures Test(lib, c, Some(raw)) <==> raw in HuntDenotations(lib, t, c.values)
  {
    forall i | 0 <= i < |c.values|
      ensures ValueEquals(lib, raw, c.values[i]) <==> HuntDenotes(lib, t, c.values[i]) == Some(raw)
    {
      HuntEqualityIsDenotation(lib, t, c.values[i], raw);
    }
  }

  lemma RuleInIsMembership(lib: Lib, t: FieldType, c: Comparison, raw: FieldValue)
    requires c.op == In && Inhabits(raw, t)
    ensures LeafTest(lib, OpIn, RuleValue(c), Some(raw)) <==> raw in RuleDenotations(lib, t, c.values)
  {
    var want := RuleValue(c);
    forall i | 0 <= i < |c.values|
      ensures ValuesEqual(lib, raw, want.vs[i]) <==> RuleDenotes(lib, t, c.values[i]) == Some(raw)
    {
      RuleEqualityIsDenotation(lib, t, c.values[i], raw);
    }
  }

  // ----- the well-typed fragment -----

  predicate IsOrdering(op: Op) {
    op in {Gt, Lt, Ge, Le}
  }

  predicate IsStringOp(op: Op) {
    op in {Has, Starts, Ends, Like}
  }

  predicate SaneRange(t: FieldType) {
    t.IntField? ==> t.lo <= t.hi <= MAX_INT64 && MIN_INT64 < t.hi
  }

  /** `<` and `>=` read a fractional bound differently after truncation, at the one
      integer below the bound; `>` and `<=` do not. */
  predicate OrderingTyped(t: FieldType, op: Op, v: Literal) {
    match t
    case StringField(_) => false
    case BoolField => ToInt64(RuleLiteral(v)).Some?
    case IntField(lo, hi, _) =>
      if v.isNum then
        v.num.Floor <= MAX_INT64 &&
        (op in {Gt, Le} || v.num == v.num.Floor as real || !(lo <= v.num.Floor <= hi))
      else ParseInt(v.text).Some?
  }

  /** What a string operator of the hunt says of a text. */
  predicate TextTest(lib: Lib, c: Comparison, s: string) {
    match c.op
    case Has => Contains(s, c.value.text)
    case Starts => HasPrefix(s, c.value.text)
    case Ends => HasSuffix(s, c.value.text)
    case Like => lib.regexMatch(c.value.text, s)
    case _ => false
  }

  /** On a field that is not a string, the rule's string operators never match, so
      promotion is safe only if the hunt's never match either: not the text of a truth value,
      nor any decimal of the field's range. */
  predicate NeverMatches(lib: Lib, t: FieldType, c: Comparison) {
    match t
    case StringField(_) => false
    case BoolField => !TextTest(lib, c, "true") && !TextTest(lib, c, "false")
    case IntField(lo, hi, _) => forall n :: lo <= n <= hi ==> !TextTest(lib, c, FormatInt(n))
  }

  lemma NeverMatchesExactly(lib: Lib, t: FieldType, c: Comparison)
    requires IsStringOp(c.op) && !t.StringField?
    ensures NeverMatches(lib, t, c) <==> forall raw :: Inhabits(raw, t) ==> !Test(lib, c, Some(raw))
  {
    forall raw | Inhabits(raw, t) ensures Test(lib, c, Some(raw)) == TextTest(lib, c, ToString(raw)) {}
    if t.BoolField? {
      assert Inhabits(BoolValue(true), t) && Inhabits(BoolValue(false), t);
    } else {
      forall n | t.lo <= n <= t.hi
        ensures Inhabits(IntValue(n), t) && Test(lib, c, Some(IntValue(n))) == TextTest(lib, c, FormatInt(n))
      {}
    }
  }

  ghost predicate SameLanguage(lib: Lib, t: FieldType, p: string, q: string) {
    forall raw :: Inhabits(raw, t) && raw.StrValue? ==> lib.regexMatch(p, raw.s) == lib.regexMatch(q, raw.s)
  }

  /** The static condition on a comparison under which the two engines agree wherever
      the field is present. */
  ghost predicate TypedAs(lib: Lib, t: FieldType, c: Comparison) {
    match c.op
    case Eq => HuntDenotes(lib, t, c.value) == RuleDenotes(lib, t, c.value)
    case Ne => HuntDenotes(lib, t, c.value) == RuleDenotes(lib, t, c.value)
    case In => HuntDenotations(lib, t, c.values) == RuleDenotations(lib, t, c.values)
    case Like =>
      lib.regexOk(ToText(lib, RuleValue(c))) &&
      if t.StringField? then SameLanguage(lib, t, c.value.text, ToText(lib, RuleValue(c)))
      else NeverMatches(lib, t, c)
    case Has => if t.StringField? then c.value.text == ToText(lib, RuleValue(c)) else NeverMatches(lib, t, c)
    case Starts => if t.StringField? then c.value.text == ToText(lib, RuleValue(c)) else NeverMatches(lib, t, c)
    case Ends => if t.StringField? then c.value.text == ToText(lib, RuleValue(c)) else NeverMatches(lib, t, c)
    case _ => OrderingTyped(t, c.op, c.value)
  }

  ghost predicate Typed(lib: Lib, c: Comparison)
    requires KnownField(c.field)
  {
    TypedAs(lib, Schema(c.field).value, c)
  }

  ghost predicate SameTest(lib: Lib, c: Comparison, raw: Option<FieldValue>) {
    Test(lib, c, raw) == LeafTest(lib, ToRuleOp(c.op), RuleValue(c), raw)
  }

  ghost predicate CompiledLeaf(lib: Lib, c: Comparison) {
    LeafCompiles(lib, c.field, ToRuleOp(c.op), RuleValue(c))
  }

  /** Absent fields: the engines differ on `!=` and on nothing else. */
  lemma AbsentField(lib: Lib, c: Comparison)
    ensures SameTest(lib, c, None) <==> c.op != Ne
  {
  }

  /** Comparing with a bound and with its integer part differ only for `<` and `>=`, only
      at a fractional bound, and only on the integer part itself. */
  lemma FractionalBound(op: Op, n: int, x: real)
    requires IsOrdering(op)
    ensures (Ordered(op, n as real, x) == CompareInt(ToRuleOp(op), n, x.Floor)) <==>
            (op in {Gt, Le} || x == x.Floor as real || n != x.Floor)
  {
    var f := x.Floor;
    assert f as real <= x < f as real + 1.0;
    if n < f {
      assert n as real < f as real;
    } else if n > f {
      assert n as real >= f as real + 1.0;
    }
  }

  lemma OrderingValue(v: Literal)
    requires WellFormed(v) && v.isNum
    ensures ToInt64(RuleLiteral(v)) == Some(if v.num.Floor <= MAX_INT64 then v.num.Floor else MIN_INT64)
  {
  }

  /** Where ordering is typed on an integer field, the rule's bound is the integer part
      of the hunt's. */
  lemma OrderingBounds(lib: Lib, t: FieldType, c: Comparison)
    requires Lawful(lib) && IsOrdering(c.op) && WellFormed(c.value)
    requires t.IntField? && OrderingTyped(t, c.op, c.value)
    ensures AsNumber(lib, c.value).Some?
    ensures ToInt64(RuleValue(c)) == Some(AsNumber(lib, c.value).value.Floor)
    ensures !c.value.isNum ==> AsNumber(lib, c.value).value == AsNumber(lib, c.value).value.Floor as real
  {
    if c.value.isNum {
      OrderingValue(c.value);
    } else {
      assert ReadsIntegers(lib, c.value.text);
    }
  }

  lemma SameOrdering(lib: Lib, c: Comparison, n: int)
    requires IsOrdering(c.op) && AsNumber(lib, c.value).Some?
    requires ToInt64(RuleValue(c)) == Some(AsNumber(lib, c.value).value.Floor)
    requires c.op in {Gt, Le} || AsNumber(lib, c.value).value == AsNumber(lib, c.value).value.Floor as real ||
             n != AsNumber(lib, c.value).value.Floor
    ensures SameTest(lib, c, Some(IntValue(n)))
  {
    FractionalBound(c.op, n, AsNumber(lib, c.value).value);
  }

  lemma OrderingAgrees(lib: Lib, t: FieldType, c: Comparison, raw: FieldValue)
    requires Lawful(lib) && IsOrdering(c.op) && WellFormed(c.value)
    requires Inhabits(raw, t) && OrderingTyped(t, c.op, c.value)
    ensures SameTest(lib, c, Some(raw))
  {
    if t.IntField? {
      OrderingBounds(lib, t, c);
      SameOrdering(lib, c, raw.n);
    }
  }

  lemma InAgrees(lib: Lib, t: FieldType, c: Comparison, raw: FieldValue)
    requires c.op == In && TypedAs(lib, t, c) && Inhabits(raw, t)
    ensures SameTest(lib, c, Some(raw))
  {
    HuntInIsMembership(lib, t, c, raw);
    RuleInIsMembership(lib, t, c, raw);
  }

  lemma EqualityAgrees(lib: Lib, t: FieldType, c: Comparison, raw: FieldValue)
    requires c.op in {Eq, Ne} && TypedAs(lib, t, c) && Inhabits(raw, t)
    ensures SameTest(lib, c, Some(raw))
  {
    HuntEqualityIsDenotation(lib, t, c.value, raw);
    RuleEqualityIsDenotation(lib, t, c.value, raw);
  }

  lemma StringOpsNeedStrings(lib: Lib, c: Comparison, raw: FieldValue)
    requires IsStringOp(c.op) && !raw.StrValue?
    ensures !LeafTest(lib, ToRuleOp(c.op), RuleValue(c), Some(raw))
  {
  }

  lemma StringOpAgrees(lib: Lib, t: FieldType, c: Comparison, raw: FieldValue)
    requires IsStringOp(c.op) && TypedAs(lib, t, c) && Inhabits(raw, t)
    ensures SameTest(lib, c, Some(raw))
  {
    if !t.StringField? {
      NeverMatchesExactly(lib, t, c);
      StringOpsNeedStrings(lib, c, raw);
    }
  }

  lemma TypedAgrees(lib: Lib, t: FieldType, c: Comparison, raw: FieldValue)
    requires Lawful(lib) && WellFormed(c.value) && TypedAs(lib, t, c)
    requires Inhabits(raw, t)
    ensures SameTest(lib, c, Some(raw))
  {
    if c.op in {Eq, Ne} {
      EqualityAgrees(lib, t, c, raw);
    } else if c.op == In {
      InAgrees(lib, t, c, raw);
    } else if IsOrdering(c.op) {
      OrderingAgrees(lib, t, c, raw);
    } else {
      StringOpAgrees(lib, t, c, raw);
    }
  }

  lemma TypedCompiles(lib: Lib, c: Comparison)
    requires Lawful(lib) && WellFormedComparison(c) && Typed(lib, c)
    ensures CompiledLeaf(lib, c)
  {
  }

  // ----- the converse: outside the fragment some value tells the engines apart -----

  lemma IntOrderingWitness(lib: Lib, t: FieldType, c: Comparison) returns (raw: FieldValue)
    requires IsOrdering(c.op) && WellFormed(c.value) && SaneRange(t)
    requires ToInt64(RuleValue(c)).Some? && !OrderingTyped(t, c.op, c.value) && t.IntField?
    ensures Inhabits(raw, t) && !SameTest(lib, c, Some(raw))
  {
    OrderingValue(c.value);
    var x := c.value.num;
    if x.Floor > MAX_INT64 {
      raw := IntValue(t.hi);
      FractionalBound(c.op, t.hi, x);
    } else {
      raw := IntValue(x.Floor);
      FractionalBound(c.op, x.Floor, x);
    }
  }

  lemma IntegerOnTheSide(op: Op, x: real) returns (k: int)
    requires IsOrdering(op)
    ensures Ordered(op, k as real, x)
  {
    k := if op in {Gt, Ge} then x.Floor + 1 else x.Floor - 1;
  }

  /** The hunt reads numbers out of strings; the rule engine orders only integers. */
  lemma OnlyHuntOrdersStrings(lib: Lib, c: Comparison, s: string)
    requires IsOrdering(c.op) && lib.parseFloat(s).Some? && AsNumber(lib, c.value).Some?
    requires Ordered(c.op, lib.parseFloat(s).value, AsNumber(lib, c.value).value)
    ensures !SameTest(lib, c, Some(StrValue(s)))
  {
  }

  lemma StringOrderingWitness(lib: Lib, t: FieldType, c: Comparison) returns (raw: FieldValue)
    requires Lawful(lib) && IsOrdering(c.op) && WellFormed(c.value)
    requires ToInt64(RuleLiteral(c.value)).Some? && t.StringField?
    ensures Inhabits(raw, t) && !SameTest(lib, c, Some(raw))
  {
    assert AsNumber(lib, c.value).Some? by { assert ReadsIntegers(lib, c.value.text); }
    var k := IntegerOnTheSide(c.op, AsNumber(lib, c.value).value);
    assert ReadsDecimal(lib, k);
    OnlyHuntOrdersStrings(lib, c, FormatInt(k));
    raw := StrValue(FormatInt(k));
  }

  lemma OrderingWitness(lib: Lib, t: FieldType, c: Comparison) returns (raw: FieldValue)
    requires Lawful(lib) && IsOrdering(c.op) && WellFormed(c.value) && SaneRange(t)
    requires ToInt64(RuleValue(c)).Some? && !OrderingTyped(t, c.op, c.value)
    ensures Inhabits(raw, t) && !SameTest(lib, c, Some(raw))
  {
    if t.StringField? {
      raw := StringOrderingWitness(lib, t, c);
    } else {
      raw := IntOrderingWitness(lib, t, c);
    }
  }

  lemma ShorterTells(a: string, b: string)
    requires a != b && |a| <= |b|
    ensures Contains(a, a) && !Contains(a, b)
    ensures HasPrefix(a, a) && !HasPrefix(a, b)
    ensures HasSuffix(a, a) && !HasSuffix(a, b)
  {
    assert a <= a[0..];
    forall i | 0 <= i <= |a| ensures !(b <= a[i..]) {
      assert i == 0 ==> a[i..] == a;
    }
  }

  lemma StringWitness(lib: Lib, t: FieldType, c: Comparison) returns (raw: FieldValue)
    requires Lawful(lib) && c.op in {Has, Starts, Ends} && WellFormed(c.value) && t.StringField?
    requires c.value.text != ToText(lib, RuleLiteral(c.value))
    ensures Inhabits(raw, t) && !SameTest(lib, c, Some(raw))
  {
    assert PrintsSomething(lib, c.value.num);
    var a, b := c.value.text, ToText(lib, RuleLiteral(c.value));
    assert a != "" && b != "";
    if |a| <= |b| {
      ShorterTells(a, b);
      raw := StrValue(a);
    } else {
      ShorterTells(b, a);
      raw := StrValue(b);
    }
  }

  lemma InWitness(lib: Lib, t: FieldType, c: Comparison) returns (raw: FieldValue)
    requires c.op == In && !TypedAs(lib, t, c)
    ensures Inhabits(raw, t) && !SameTest(lib, c, Some(raw))
  {
    var h, r := HuntDenotations(lib, t, c.values), RuleDenotations(lib, t, c.values);
    assert exists v :: (v in h) != (v in r);
    raw :| (raw in h) != (raw in r);
    HuntInIsMembership(lib, t, c, raw);
    RuleInIsMembership(lib, t, c, raw);
  }

  lemma EqualityWitness(lib: Lib, t: FieldType, c: Comparison) returns (raw: FieldValue)
    requires c.op in {Eq, Ne} && !TypedAs(lib, t, c)
    ensures Inhabits(raw, t) && !SameTest(lib, c, Some(raw))
  {
    var h, r := HuntDenotes(lib, t, c.value), RuleDenotes(lib, t, c.value);
    raw := if h.Some? then h.value else r.value;
    HuntEqualityIsDenotation(lib, t, c.value, raw);
    RuleEqualityIsDenotation(lib, t, c.value, raw);
  }

  lemma RegexWitness(lib: Lib, t: FieldType, c: Comparison) returns (raw: FieldValue)
    requires c.op == Like && t.StringField? && !SameLanguage(lib, t, c.value.text, ToText(lib, RuleValue(c)))
    ensures Inhabits(raw, t) && !SameTest(lib, c, Some(raw))
  {
    raw :| Inhabits(raw, t) && raw.StrValue? &&
           lib.regexMatch(c.value.text, raw.s) != lib.regexMatch(ToText(lib, RuleValue(c)), raw.s);
  }

  // Patterns that are written as numbers.

  predicate NumericPattern(p: string) {
    p != "" && forall i :: 0 <= i < |p| ==> IsDigit(p[i]) || p[i] == '.'
  }

  predicate FitsAt(p: string, s: string, k: nat) {
    k + |p| <= |s| && forall i :: 0 <= i < |p| ==> if p[i] == '.' then s[k + i] != '\n' else s[k + i] == p[i]
  }

  /** The law used of such a pattern: it searches for its digits, a dot standing for any
      character of a line. One printed with an exponent asks for its `e`. */
  ghost predicate SearchesNumber(lib: Lib, p: string) {
    forall s :: lib.regexMatch(p, s) ==> if NumericPattern(p) then exists k :: FitsAt(p, s, k) else 'e' in s
  }

  ghost predicate FindsNumber(lib: Lib, p: string) {
    forall s :: NumericPattern(p) && FitsAt(p, s, 0) ==> lib.regexMatch(p, s)
  }

  function Sample(p: string): (s: string)
    ensures |s| == |p| && forall i :: 0 <= i < |p| ==> s[i] == if p[i] == '.' then 'x' else p[i]
  {
    seq(|p|, i requires 0 <= i < |p| => if p[i] == '.' then 'x' else p[i])
  }

  /** A number pattern that is longer, or has a digit where the other has something else. */
  predicate Pickier(p: string, q: string) {
    |p| > |q| || (|p| == |q| && exists i :: 0 <= i < |p| && p[i] != '.' && p[i] != q[i])
  }

  lemma PickierMisses(lib: Lib, p: string, q: string)
    requires NumericPattern(p) && NumericPattern(q) && Pickier(p, q) && SearchesNumber(lib, p)
    ensures !lib.regexMatch(p, Sample(q))
  {
    var s := Sample(q);
    assert forall k: nat :: !FitsAt(p, s, k);
  }

  /** A pattern written as a number finds the same texts as the pattern the rule prints
      exactly when the two are written alike. */
  lemma NumberPatternsExactly(lib: Lib, t: FieldType, p: string, q: string)
    requires t.StringField? && NumericPattern(p) && SearchesNumber(lib, p) && FindsNumber(lib, p)
    requires SearchesNumber(lib, q) && FindsNumber(lib, q)
    ensures SameLanguage(lib, t, p, q) <==> p == q
  {
    if p != q {
      var a, b := StrValue(Sample(p)), StrValue(Sample(q));
      assert FitsAt(p, Sample(p), 0) && Inhabits(a, t);
      if !NumericPattern(q) {
        assert !lib.regexMatch(q, Sample(p));
      } else {
        assert FitsAt(q, Sample(q), 0) && Inhabits(b, t);
        if Pickier(q, p) { PickierMisses(lib, q, p); } else { PickierMisses(lib, p, q); }
      }
    }
  }

  lemma MisusedStringOpWitness(lib: Lib, t: FieldType, c: Comparison) returns (raw: FieldValue)
    requires IsStringOp(c.op) && !t.StringField? && !NeverMatches(lib, t, c)
    ensures Inhabits(raw, t) && !SameTest(lib, c, Some(raw))
  {
    NeverMatchesExactly(lib, t, c);
    raw :| Inhabits(raw, t) && Test(lib, c, Some(raw));
    StringOpsNeedStrings(lib, c, raw);
  }

  lemma StringOpWitness(lib: Lib, t: FieldType, c: Comparison) returns (raw: FieldValue)
    requires Lawful(lib) && IsStringOp(c.op) && WellFormed(c.value) && !TypedAs(lib, t, c)
    requires c.op == Like ==> lib.regexOk(ToText(lib, RuleValue(c)))
    ensures Inhabits(raw, t) && !SameTest(lib, c, Some(raw))
  {
    if !t.StringField? {
      raw := MisusedStringOpWitness(lib, t, c);
    } else if c.op == Like {
      raw := RegexWitness(lib, t, c);
    } else {
      raw := StringWitness(lib, t, c);
    }
  }

  lemma UntypedWitness(lib: Lib, t: FieldType, c: Comparison) returns (raw: FieldValue)
    requires Lawful(lib) && WellFormed(c.value) && !TypedAs(lib, t, c) && SaneRange(t)
    requires IsOrdering(c.op) ==> ToInt64(RuleValue(c)).Some?
    requires c.op == Like ==> lib.regexOk(ToText(lib, RuleValue(c)))
    ensures Inhabits(raw, t) && !SameTest(lib, c, Some(raw))
  {
    if c.op in {Eq, Ne} {
      raw := EqualityWitness(lib, t, c);
    } else if c.op == In {
      raw := InWitness(lib, t, c);
    } else if IsOrdering(c.op) {
      raw := OrderingWitness(lib, t, c);
    } else {
      raw := StringOpWitness(lib, t, c);
    }
  }

  // ----- the exact condition for one comparison -----

  ghost predicate Promotable(lib: Lib, c: Comparison)
    requires KnownField(c.field)
  {
    Typed(lib, c) && (c.op == Ne ==> !MayBeAbsent(Schema(c.field).value))
  }

  ghost predicate AgreesEverywhere(lib: Lib, c: Comparison) {
    forall e: Event :: SameTest(lib, c, Field(e, c.field))
  }

  /** A comparison's rule leaf loads and agrees with the hunt on every event exactly when
      the comparison is promotable. */
  lemma PromotableExactly(lib: Lib, c: Comparison)
    requires Lawful(lib) && WellFormedComparison(c)
    ensures CompiledLeaf(lib, c) && AgreesEverywhere(lib, c) <==> Promotable(lib, c)
  {
    if Promotable(lib, c) {
      TypedCompiles(lib, c);
      forall e: Event ensures SameTest(lib, c, Field(e, c.field)) {
        FieldRespectsSchema(e, c.field);
        AbsentField(lib, c);
        if Field(e, c.field).Some? { TypedAgrees(lib, Schema(c.field).value, c, Field(e, c.field).value); }
      }
    } else if CompiledLeaf(lib, c) {
      if !Typed(lib, c) {
        var raw := UntypedWitness(lib, Schema(c.field).value, c);
        SchemaIsRealised(c.field, raw);
        assert !SameTest(lib, c, Field(EventWith(c.field, raw), c.field));
      } else {
        AbsenceIsRealised(c.field);
        AbsentField(lib, c);
        assert !SameTest(lib, c, Field(EMPTY_EVENT, c.field));
      }
    }
  }

  // ----- whole queries -----

  /** Every comparison is typed, and the event has every field the query tests with `!=`. */
  ghost predicate TypedOn(lib: Lib, x: Expr, e: Event) {
    match x
    case And(l, r) => TypedOn(lib, l, e) && TypedOn(lib, r, e)
    case Or(l, r) => TypedOn(lib, l, e) && TypedOn(lib, r, e)
    case Not(i) => TypedOn(lib, i, e)
    case Compare(c) => WellFormedComparison(c) && Typed(lib, c) && (c.op == Ne ==> Field(e, c.field).Some?)
  }

  ghost predicate Same(lib: Lib, x: Expr, c: Condition, e: Event) {
    Compiles(lib, c) && EvalCondition(lib, c, e) == Eval(lib, x, e)
  }

  lemma {:induction false} ExprAgrees(lib: Lib, x: Expr, e: Event)
    requires Lawful(lib) && TypedOn(lib, x, e)
    ensures Same(lib, x, ToCond(x), e)
    decreases x, 2
  {
    var leaf := OnEvent(lib, e);
    match x
    case And(_, _) =>
      FlattenAndAgrees(lib, x, e);
      AllGroupHolds(lib, FlattenAnd(x), leaf);
    case Or(_, _) =>
      FlattenOrAgrees(lib, x, e);
      AnyGroupHolds(lib, FlattenOr(x), leaf);
    case Not(i) =>
      ExprAgrees(lib, i, e);
      NotHolds(lib, ToCond(i), leaf);
    case Compare(c) =>
      LeafHolds(lib, c.field, ToRuleOp(c.op), RuleValue(c), e);
      TypedCompiles(lib, c);
      FieldRespectsSchema(e, c.field);
      AbsentField(lib, c);
      if Field(e, c.field).Some? { TypedAgrees(lib, Schema(c.field).value, c, Field(e, c.field).value); }
  }

  lemma {:induction false} FlattenAndAgrees(lib: Lib, x: Expr, e: Event)
    requires Lawful(lib) && TypedOn(lib, x, e)
    ensures AllCompile(lib, FlattenAnd(x))
    ensures AllHold(FlattenAnd(x), OnEvent(lib, e)) == Eval(lib, x, e)
    decreases x, if x.And? then 1 else 3
  {
    if x.And? {
      FlattenAndAgrees(lib, x.left, e);
      FlattenAndAgrees(lib, x.right, e);
      AllHoldConcat(FlattenAnd(x.left), FlattenAnd(x.right), OnEvent(lib, e));
    } else {
      ExprAgrees(lib, x, e);
      OneHolds(ToCond(x), OnEvent(lib, e));
    }
  }

  lemma {:induction false} FlattenOrAgrees(lib: Lib, x: Expr, e: Event)
    requires Lawful(lib) && TypedOn(lib, x, e)
    ensures AllCompile(lib, FlattenOr(x))
    ensures AnyHolds(FlattenOr(x), OnEvent(lib, e)) == Eval(lib, x, e)
    decreases x, if x.Or? then 1 else 3
  {
    if x.Or? {
      FlattenOrAgrees(lib, x.left, e);
      FlattenOrAgrees(lib, x.right, e);
      AnyHoldsConcat(FlattenOr(x.left), FlattenOr(x.right), OnEvent(lib, e));
    } else {
      ExprAgrees(lib, x, e);
      OneHolds(ToCond(x), OnEvent(lib, e));
    }
  }

  ghost predicate AllTypedOn(lib: Lib, xs: seq<Expr>, e: Event) {
    forall i :: 0 <= i < |xs| ==> TypedOn(lib, xs[i], e)
  }

  ghost predicate AllEval(lib: Lib, xs: seq<Expr>, e: Event) {
    forall i :: 0 <= i < |xs| ==> Eval(lib, xs[i], e)
  }

  lemma AllEvalConcat(lib: Lib, xs: seq<Expr>, ys: seq<Expr>, e: Event)
    ensures AllEval(lib, xs + ys, e) == (AllEval(lib, xs, e) && AllEval(lib, ys, e))
  {
    var s := xs + ys;
    assert forall i :: 0 <= i < |xs| ==> s[i] == xs[i];
    assert forall i :: 0 <= i < |ys| ==> s[|xs| + i] == ys[i];
  }

  function PipeFilter(p: Pipe): (x: Option<Expr>) {
    if p.Where? then Some(p.filter) else None
  }

  lemma OptionMeans(lib: Lib, x: Option<Expr>, e: Event)
    ensures AllEval(lib, AsSeq(x), e) == FilterHolds(lib, x, e)
  {
    if x.Some? { assert AsSeq(x)[0] == x.value; }
  }

  lemma {:induction false} PipeFiltersMean(lib: Lib, pipes: seq<Pipe>, e: Event)
    ensures AllEval(lib, PipeFilters(pipes), e) == PipesHold(lib, pipes, e)
  {
    if pipes != [] {
      PipeFiltersMean(lib, pipes[1..], e);
      OptionMeans(lib, PipeFilter(pipes[0]), e);
      AllEvalConcat(lib, AsSeq(PipeFilter(pipes[0])), PipeFilters(pipes[1..]), e);
      assert forall i :: 0 < i < |pipes| ==> pipes[i] == pipes[1..][i - 1];
    }
  }

  lemma FiltersMean(lib: Lib, q: Query, e: Event)
    requires q.Simple?
    ensures Selects(lib, q, e) == (ClassMatches(q.class_, e) && AllEval(lib, Filters(q), e))
  {
    PipeFiltersMean(lib, q.pipes, e);
    OptionMeans(lib, q.filter, e);
    AllEvalConcat(lib, AsSeq(q.filter), PipeFilters(q.pipes), e);
  }

  lemma ToCondsAgree(lib: Lib, xs: seq<Expr>, e: Event)
    requires Lawful(lib) && AllTypedOn(lib, xs, e)
    ensures AllCompile(lib, ToConds(xs))
    ensures AllHold(ToConds(xs), OnEvent(lib, e)) == AllEval(lib, xs, e)
  {
    forall i | 0 <= i < |xs| ensures Same(lib, xs[i], ToConds(xs)[i], e) {
      ExprAgrees(lib, xs[i], e);
    }
  }

  lemma AssembleHolds(lib: Lib, conds: seq<Condition>, e: Event)
    requires AllCompile(lib, conds)
    ensures Compiles(lib, Assemble(conds))
    ensures EvalCondition(lib, Assemble(conds), e) ==
            (AllHold(conds, OnEvent(lib, e)) && (conds == [] ==> e.action != ""))
  {
    if conds == [] {
      LeafHolds(lib, EventAction, OpExists, Nil, e);
    } else if |conds| == 1 {
      assert conds == [conds[0]];
      OneHolds(conds[0], OnEvent(lib, e));
    } else {
      AllGroupHolds(lib, conds, OnEvent(lib, e));
    }
  }

  lemma ClassGuardHolds(lib: Lib, k: ClassRef, e: Event)
    requires k.Class? ==> k.action != ""
    ensures AllCompile(lib, ClassGuard(k))
    ensures AllHold(ClassGuard(k), OnEvent(lib, e)) == ClassMatches(k, e)
  {
    if k.Class? {
      LeafHolds(lib, EventType, OpEq, Str(k.action), e);
      OneHolds(Leaf(EventType, OpEq, Str(k.action)), OnEvent(lib, e));
    }
  }

  predicate NoConstraint(q: Query)
    requires q.Simple?
  {
    q.class_.AnyClass? && Filters(q) == []
  }

  /** A promoted query fires on exactly the events the hunt selects, for every simple
      query and every event on which its comparisons are typed. The one query without
      any constraint also needs the event to carry an action. */
  lemma PromotionPreservesMeaning(lib: Lib, q: Query, e: Event)
    requires Lawful(lib) && q.Simple? && AllTypedOn(lib, Filters(q), e)
    requires q.class_.Class? ==> q.class_.action != ""
    ensures Compiles(lib, TreeOf(q))
    ensures EvalCondition(lib, TreeOf(q), e) <==> Selects(lib, q, e) && (NoConstraint(q) ==> e.action != "")
  {
    var guard, conds := ClassGuard(q.class_), ToConds(Filters(q));
    FiltersMean(lib, q, e);
    ToCondsAgree(lib, Filters(q), e);
    ClassGuardHolds(lib, q.class_, e);
    AllHoldConcat(guard, conds, OnEvent(lib, e));
    AllCompileConcat(lib, guard, conds);
    AssembleHolds(lib, guard + conds, e);
  }

  // ----- concrete cases, in and out of the fragment -----

  /** String operators and equality with string literals on string fields are typed. */
  lemma StringLiteralsAreTyped(lib: Lib, c: Comparison)
    requires Lawful(lib) && WellFormedComparison(c) && Schema(c.field).value.StringField?
    requires c.op in {Eq, Ne, Has, Starts, Ends} || (c.op == Like && lib.regexOk(c.value.text))
    requires !c.value.isNum
    ensures Typed(lib, c)
  {
  }

  /** Integral literals on integer fields are typed, whatever the operator on numbers. */
  lemma IntegralLiteralsAreTyped(lib: Lib, c: Comparison)
    requires Lawful(lib) && WellFormedComparison(c) && Schema(c.field).value.IntField?
    requires c.op in {Eq, Ne} || IsOrdering(c.op)
    requires c.value.isNum && c.value.num == c.value.num.Floor as real && c.value.num.Floor <= MAX_INT64
    ensures Typed(lib, c)
  {
  }

  /** `process.pid == 1.5` never matches in a hunt, and matches pid 1 as a rule. */
  lemma FractionalLiteralBreaksEquality(lib: Lib)
    ensures !SameTest(lib, Comparison(ProcessPid, Eq, Literal("1.5", 1.5, true), []), Some(IntValue(1)))
  {
  }

  /** `process.stdio_socket == "1"` never matches in a hunt, and matches true as a rule. */
  lemma LooseBooleanBreaksEquality(lib: Lib)
    ensures !SameTest(lib, Comparison(ProcessStdioSocket, Eq, Literal("1", 0.0, false), []), Some(BoolValue(true)))
  {
  }

  /** Promotability of the parts is not necessary for the whole: any comparison,
      promotable or not, can be masked by the query around it. */
  lemma MaskedComparison(lib: Lib, c: Comparison, e: Event)
    ensures
      var x := And(Compare(c), Not(Compare(c)));
      EvalCondition(lib, ToCond(x), e) == Eval(lib, x, e) == false
  {
    var x := And(Compare(c), Not(Compare(c)));
    var a := ToCond(Compare(c));
    assert FlattenAnd(Compare(c)) == [a];
    assert FlattenAnd(Not(Compare(c))) == [NotNode(a)];
    AllGroupHolds(lib, [a] + [NotNode(a)], OnEvent(lib, e));
    AllHoldConcat([a], [NotNode(a)], OnEvent(lib, e));
    OneHolds(a, OnEvent(lib, e));
    OneHolds(NotNode(a), OnEvent(lib, e));
    NotHolds(lib, a, OnEvent(lib, e));
  }
}
