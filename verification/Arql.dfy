/** ARQL queries and the hunt engine's evaluation of them. */
module Arql {
  import opened Text
  import opened Model
  import opened Stdlib

  datatype Op = Eq | Ne | Gt | Lt | Ge | Le | Like | Has | Starts | Ends | In

  /** A literal: `text` is the token's text; `num` is its value when it is a number. */
  datatype Literal = Literal(text: string, num: real, isNum: bool)

  datatype Comparison = Comparison(field: FieldPath, op: Op, value: Literal, values: seq<Literal>)

  datatype Expr = And(left: Expr, right: Expr) | Or(left: Expr, right: Expr) | Not(inner: Expr) | Compare(c: Comparison)

  datatype ClassRef = AnyClass | Class(action: string)

  datatype Pipe = Where(filter: Expr) | Limit(n: int)

  datatype Stage = Stage(class_: ClassRef, filter: Option<Expr>)

  datatype Query =
    | Simple(class_: ClassRef, filter: Option<Expr>, pipes: seq<Pipe>)
    | Sequence(groupField: FieldPath, within: int, stages: seq<Stage>)

  // ----- evaluation (internal/hunt/eval.go) -----

  function AsNumber(lib: Lib, v: Literal): (r: Option<real>) {
    if v.isNum then Some(v.num) else lib.parseFloat(v.text)
  }

  function ToNumber(lib: Lib, raw: FieldValue): (r: Option<real>) {
    match raw
    case IntValue(n) => Some(n as real)
    case StrValue(s) => lib.parseFloat(s)
    case BoolValue(_) => None
  }

  function FormatBool(b: bool): (s: string) {
    if b then "true" else "false"
  }

  function ToString(raw: FieldValue): (s: string) {
    match raw
    case IntValue(n) => FormatInt(n)
    case StrValue(s) => s
    case BoolValue(b) => FormatBool(b)
  }

  function LiteralText(lib: Lib, v: Literal): (s: string) {
    if v.isNum then lib.formatFloat(v.num) else v.text
  }

  predicate ValueEquals(lib: Lib, raw: FieldValue, v: Literal) {
    match raw
    case IntValue(n) => AsNumber(lib, v) == Some(n as real)
    case BoolValue(b) => v.text == FormatBool(b)
    case StrValue(s) => s == LiteralText(lib, v)
  }

  predicate Ordered(op: Op, left: real, right: real) {
    match op
    case Gt => left > right
    case Lt => left < right
    case Ge => left >= right
    case Le => left <= right
    case _ => false
  }

  predicate NumericCompare(lib: Lib, raw: FieldValue, op: Op, v: Literal) {
    ToNumber(lib, raw).Some? && AsNumber(lib, v).Some? &&
    Ordered(op, ToNumber(lib, raw).value, AsNumber(lib, v).value)
  }

  /** One comparison against the field's value; an absent field never matches. */
  predicate Test(lib: Lib, c: Comparison, raw: Option<FieldValue>) {
    raw.Some? &&
    match c.op
    case Eq => ValueEquals(lib, raw.value, c.value)
    case Ne => !ValueEquals(lib, raw.value, c.value)
    case Has => Contains(ToString(raw.value), c.value.text)
    case Starts => HasPrefix(ToString(raw.value), c.value.text)
    case Ends => HasSuffix(ToString(raw.value), c.value.text)
    case Like => lib.regexMatch(c.value.text, ToString(raw.value))
    case In => exists i :: 0 <= i < |c.values| && ValueEquals(lib, raw.value, c.values[i])
    case _ => NumericCompare(lib, raw.value, c.op, c.value)
  }

  predicate Eval(lib: Lib, x: Expr, e: Event) {
    match x
    case And(l, r) => Eval(lib, l, e) && Eval(lib, r, e)
    case Or(l, r) => Eval(lib, l, e) || Eval(lib, r, e)
    case Not(i) => !Eval(lib, i, e)
    case Compare(c) => Test(lib, c, Field(e, c.field))
  }

  predicate ClassMatches(c: ClassRef, e: Event) {
    c.AnyClass? || e.action == c.action
  }

  predicate FilterHolds(lib: Lib, f: Option<Expr>, e: Event) {
    f.None? || Eval(lib, f.value, e)
  }

  predicate StageMatches(lib: Lib, s: Stage, e: Event) {
    ClassMatches(s.class_, e) && FilterHolds(lib, s.filter, e)
  }

  /** What a simple query selects: the class, the where filter and every pipe filter. */
  predicate Selects(lib: Lib, q: Query, e: Event)
    requires q.Simple?
  {
    && ClassMatches(q.class_, e)
    && FilterHolds(lib, q.filter, e)
    && PipesHold(lib, q.pipes, e)
  }

  predicate PipesHold(lib: Lib, pipes: seq<Pipe>, e: Event) {
    forall i :: 0 <= i < |pipes| && pipes[i].Where? ==> Eval(lib, pipes[i].filter, e)
  }

  /** A number in a hunt is equal to the field's number, and on a text field to its shortest form;
      any other word is equal to the same text, the number it spells, or the truth value. */
  lemma EqualityInWords(lib: Lib, s: string, n: int, b: bool, v: Literal)
    ensures ValueEquals(lib, StrValue(s), v) <==> s == if v.isNum then lib.formatFloat(v.num) else v.text
    ensures v.isNum ==> (ValueEquals(lib, IntValue(n), v) <==> n as real == v.num)
    ensures !v.isNum ==> (ValueEquals(lib, IntValue(n), v) <==> lib.parseFloat(v.text) == Some(n as real))
    ensures ValueEquals(lib, BoolValue(b), v) <==> (b && v.text == "true") || (!b && v.text == "false")
  {
  }
}
