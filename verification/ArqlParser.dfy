/** The ARQL recursive-descent parser over a token list: a class that advances a position,
    proved against a parser on the remaining tokens. */
module ArqlParser {
  import opened Text
  import opened Model
  import opened Stdlib
  import opened Arql

  datatype Token =
    | EOF | Ident(text: string) | Quoted(text: string) | Number(text: string) | Duration(text: string)
    | Symbol(op: Op) | Bar | LParen | RParen | Comma | Colon | Semicolon

  /** The parser's surroundings: the table of known fields and library functions. */
  datatype Env = Env(fields: map<string, FieldPath>, lib: Lib, parseDuration: string -> Option<int>)

  datatype Parsed<+T> = Yes(value: T, rest: seq<Token>) | No

  const PLAIN := Literal("", 0.0, false)
  const SECOND := 1_000_000_000

  // ----- specification: parsing the remaining tokens -----

  predicate Kw(ts: seq<Token>, word: string) {
    ts != [] && ts[0] == Ident(word)
  }

  predicate Next(ts: seq<Token>, t: Token) {
    ts != [] && ts[0] == t
  }

  function FieldOf(env: Env, ts: seq<Token>): (r: Parsed<FieldPath>)
    ensures r.Yes? ==> |r.rest| < |ts|
  {
    if ts != [] && ts[0].Ident? && ts[0].text in env.fields then Yes(env.fields[ts[0].text], ts[1..]) else No
  }

  /** The operators that the lexer emits as symbols. */
  predicate IsSymbol(op: Op) {
    op in {Eq, Ne, Gt, Lt, Ge, Le, Like}
  }

  function OperatorOf(ts: seq<Token>): (r: Parsed<Op>)
    ensures r.Yes? ==> |r.rest| < |ts|
  {
    if ts != [] && ts[0].Symbol? && IsSymbol(ts[0].op) then Yes(ts[0].op, ts[1..])
    else if Kw(ts, "contains") then Yes(Has, ts[1..])
    else if Kw(ts, "startswith") then Yes(Starts, ts[1..])
    else if Kw(ts, "endswith") then Yes(Ends, ts[1..])
    else No
  }

  function ValueOf(env: Env, ts: seq<Token>): (r: Parsed<Literal>)
    ensures r.Yes? ==> |r.rest| < |ts|
  {
    if ts == [] then No
    else
      match ts[0]
      case Quoted(t) => Yes(Literal(t, 0.0, false), ts[1..])
      case Ident(t) => Yes(Literal(t, 0.0, false), ts[1..])
      case Number(t) =>
        var num := env.lib.parseFloat(t);
        if num.Some? then Yes(Literal(t, num.value, true), ts[1..]) else No
      case _ => No
  }

  /** The values of an `in` list after those already read. */
  function ValuesOf(env: Env, read: seq<Literal>, ts: seq<Token>): (r: Parsed<seq<Literal>>)
    ensures r.Yes? ==> |r.rest| < |ts|
    decreases |ts|
  {
    var v := ValueOf(env, ts);
    if v.No? then No
    else if Next(v.rest, Comma) then ValuesOf(env, read + [v.value], v.rest[1..])
    else Yes(read + [v.value], v.rest)
  }

  function InOf(env: Env, field: FieldPath, ts: seq<Token>): (r: Parsed<Expr>)
    ensures r.Yes? ==> |r.rest| < |ts|
  {
    if !Next(ts, LParen) then No
    else
      var vs := ValuesOf(env, [], ts[1..]);
      if vs.No? || !Next(vs.rest, RParen) then No
      else Yes(Compare(Comparison(field, In, PLAIN, vs.value)), vs.rest[1..])
  }

  function TestOf(env: Env, field: FieldPath, ts: seq<Token>): (r: Parsed<Expr>)
    ensures r.Yes? ==> |r.rest| < |ts|
  {
    var op := OperatorOf(ts);
    if op.No? then No
    else
      var v := ValueOf(env, op.rest);
      if v.No? || (op.value == Like && !env.lib.regexOk(v.value.text)) then No
      else Yes(Compare(Comparison(field, op.value, v.value, [])), v.rest)
  }

  function ComparisonOf(env: Env, ts: seq<Token>): (r: Parsed<Expr>)
    ensures r.Yes? ==> |r.rest| < |ts|
  {
    var f := FieldOf(env, ts);
    if f.No? then No
    else if Kw(f.rest, "in") then InOf(env, f.value, f.rest[1..])
    else TestOf(env, f.value, f.rest)
  }

  function UnaryOf(env: Env, ts: seq<Token>): (r: Parsed<Expr>)
    ensures r.Yes? ==> |r.rest| < |ts|
    decreases |ts|, 0
  {
    if Kw(ts, "not") then
      var x := UnaryOf(env, ts[1..]);
      if x.No? then No else Yes(Not(x.value), x.rest)
    else if Next(ts, LParen) then
      var x := OrOf(env, ts[1..]);
      if x.No? || !Next(x.rest, RParen) then No else Yes(x.value, x.rest[1..])
    else ComparisonOf(env, ts)
  }

  function AndOf(env: Env, ts: seq<Token>): (r: Parsed<Expr>)
    ensures r.Yes? ==> |r.rest| < |ts|
    decreases |ts|, 1
  {
    var x := UnaryOf(env, ts);
    if x.No? then No else AndMore(env, x.value, x.rest)
  }

  function AndMore(env: Env, left: Expr, ts: seq<Token>): (r: Parsed<Expr>)
    ensures r.Yes? ==> |r.rest| <= |ts|
    decreases |ts|, 1
  {
    if !Kw(ts, "and") then Yes(left, ts)
    else
      var x := UnaryOf(env, ts[1..]);
      if x.No? then No else AndMore(env, And(left, x.value), x.rest)
  }

  function OrOf(env: Env, ts: seq<Token>): (r: Parsed<Expr>)
    ensures r.Yes? ==> |r.rest| < |ts|
    decreases |ts|, 2
  {
    var x := AndOf(env, ts);
    if x.No? then No else OrMore(env, x.value, x.rest)
  }

  function OrMore(env: Env, left: Expr, ts: seq<Token>): (r: Parsed<Expr>)
    ensures r.Yes? ==> |r.rest| <= |ts|
    decreases |ts|, 2
  {
    if !Kw(ts, "or") then Yes(left, ts)
    else
      var x := AndOf(env, ts[1..]);
      if x.No? then No else OrMore(env, Or(left, x.value), x.rest)
  }

  function ClassOf(ts: seq<Token>): (r: Parsed<ClassRef>)
    ensures r.Yes? ==> |r.rest| < |ts|
  {
    if ts == [] || !ts[0].Ident? then No
    else if ts[0].text == "event" || ts[0].text == "any" then Yes(AnyClass, ts[1..])
    else Yes(Class(ts[0].text), ts[1..])
  }

  /** An optional `where` clause. */
  function WhereOf(env: Env, ts: seq<Token>): (r: Parsed<Option<Expr>>)
    ensures r.Yes? ==> |r.rest| <= |ts|
  {
    if !Kw(ts, "where") then Yes(None, ts)
    else
      var x := OrOf(env, ts[1..]);
      if x.No? then No else Yes(Some(x.value), x.rest)
  }

  function PipeOf(env: Env, ts: seq<Token>): (r: Parsed<Pipe>)
    ensures r.Yes? ==> |r.rest| < |ts|
  {
    if Kw(ts, "where") then
      var x := OrOf(env, ts[1..]);
      if x.No? then No else Yes(Where(x.value), x.rest)
    else if Kw(ts, "limit") then
      if |ts| < 2 || !ts[1].Number? || ParseInt(ts[1].text).None? then No
      else Yes(Limit(ParseInt(ts[1].text).value), ts[2..])
    else No
  }

  function PipesOf(env: Env, read: seq<Pipe>, ts: seq<Token>): (r: Parsed<seq<Pipe>>)
    ensures r.Yes? ==> |r.rest| <= |ts|
    decreases |ts|
  {
    if !Next(ts, Bar) then Yes(read, ts)
    else
      var p := PipeOf(env, ts[1..]);
      if p.No? then No else PipesOf(env, read + [p.value], p.rest)
  }

  function StageOf(env: Env, ts: seq<Token>): (r: Parsed<Stage>)
    ensures r.Yes? ==> |r.rest| < |ts|
  {
    var k := ClassOf(ts);
    if k.No? then No
    else
      var w := WhereOf(env, k.rest);
      if w.No? then No else Yes(Stage(k.value, w.value), w.rest)
  }

  function StagesOf(env: Env, read: seq<Stage>, ts: seq<Token>): (r: Parsed<seq<Stage>>)
    ensures r.Yes? ==> |r.rest| < |ts|
    decreases |ts|
  {
    var s := StageOf(env, ts);
    if s.No? then No
    else if Next(s.rest, Semicolon) then StagesOf(env, read + [s.value], s.rest[1..])
    else Yes(read + [s.value], s.rest)
  }

  /** A duration token, or a number of seconds (multiplied in 64 bits). */
  function DurationValue(env: Env, t: Token): (d: Option<int>) {
    match t
    case Duration(text) => env.parseDuration(text)
    case Number(text) => if ParseInt(text).Some? then Some(Wrap64(ParseInt(text).value * SECOND)) else None
    case _ => None
  }

  /** A number without a unit is a number of seconds. */
  lemma BareNumberIsSeconds(env: Env, n: int)
    requires MIN_INT64 <= n * 1_000_000_000 <= MAX_INT64
    ensures DurationValue(env, Number(FormatInt(n))) == Some(n * 1_000_000_000)
  {
    ParseFormatInt(n);
  }

  function DurationOf(env: Env, ts: seq<Token>): (r: Parsed<int>)
    ensures r.Yes? ==> |r.rest| < |ts|
  {
    if ts == [] || DurationValue(env, ts[0]).None? then No else Yes(DurationValue(env, ts[0]).value, ts[1..])
  }

  function ByOf(env: Env, ts: seq<Token>): (r: Parsed<FieldPath>)
    ensures r.Yes? ==> |r.rest| <= |ts|
  {
    if Kw(ts, "by") then FieldOf(env, ts[1..]) else Yes(NoField, ts)
  }

  function WithinOf(env: Env, ts: seq<Token>): (r: Parsed<int>)
    ensures r.Yes? ==> |r.rest| <= |ts|
  {
    if Kw(ts, "within") then DurationOf(env, ts[1..]) else Yes(0, ts)
  }

  /** The colon and the stages of a sequence query. */
  function BodyOf(env: Env, ts: seq<Token>): (r: Parsed<seq<Stage>>)
    ensures r.Yes? ==> |r.rest| < |ts|
  {
    if !Next(ts, Colon) then No
    else
      var ss := StagesOf(env, [], ts[1..]);
      if ss.No? || |ss.value| < 2 then No else ss
  }

  /** A sequence query, after its first keyword. */
  function SequenceOf(env: Env, ts: seq<Token>): (r: Parsed<Query>)
    ensures r.Yes? ==> |r.rest| < |ts|
  {
    var g := ByOf(env, ts);
    if g.No? then No
    else
      var within := WithinOf(env, g.rest);
      if within.No? then No
      else
        var ss := BodyOf(env, within.rest);
        if ss.No? then No else Yes(Sequence(g.value, within.value, ss.value), ss.rest)
  }

  function SimpleOf(env: Env, ts: seq<Token>): (r: Parsed<Query>)
    ensures r.Yes? ==> |r.rest| < |ts|
  {
    var k := ClassOf(ts);
    if k.No? then No
    else
      var w := WhereOf(env, k.rest);
      if w.No? then No
      else
        var ps := PipesOf(env, [], w.rest);
        if ps.No? then No else Yes(Simple(k.value, w.value, ps.value), ps.rest)
  }

  function QueryOf(env: Env, ts: seq<Token>): (r: Parsed<Query>)
    ensures r.Yes? ==> |r.rest| < |ts|
  {
    if Kw(ts, "sequence") then SequenceOf(env, ts[1..]) else SimpleOf(env, ts)
  }

  /** A whole token list: a query followed by the end marker. */
  function ParseTokens(env: Env, ts: seq<Token>): (r: Result<Query>) {
    var q := QueryOf(env, ts);
    if q.Yes? && Next(q.rest, EOF) then Ok(q.value) else Err
  }

  // ----- the parser object -----

  /** The source's parser: a token list that ends in EOF and a position into it. Every
      method requires a token under the position, and leaves one there when it succeeds:
      the token list is never read past its end. */
  class Parser {
    const env: Env
    const tokens: seq<Token>
    var pos: nat

    constructor (env: Env, tokens: seq<Token>)
      requires tokens != [] && tokens[|tokens| - 1] == EOF
      ensures Valid() && this.env == env && this.tokens == tokens && pos == 0
    {
      this.env, this.tokens, pos := env, tokens, 0;
    }

    ghost predicate Valid()
      reads this
    {
      pos < |tokens| && tokens[|tokens| - 1] == EOF
    }

    ghost function Rest(): (ts: seq<Token>)
      requires pos <= |tokens|
      reads this
    {
      tokens[pos..]
    }

    /** The result and the new position are what the specification says of the old rest. */
    ghost predicate Agrees<T>(spec: Parsed<T>, r: Result<T>)
      reads this
    {
      match r
      case Ok(v) => Valid() && spec == Yes(v, Rest())
      case Err => spec.No?
    }

    function Peek(): (t: Token)
      requires Valid()
      reads this
    {
      tokens[pos]
    }

    predicate IsKeyword(word: string)
      requires Valid()
      reads this
    {
      Peek() == Ident(word)
    }

    /** Consumes a token; only EOF can take the position off the list. */
    method Take() returns (t: Token)
      requires Valid()
      modifies `pos
      ensures t == old(Rest())[0] && pos == old(pos) + 1 <= |tokens|
      ensures Rest() == old(Rest())[1..] && (t != EOF ==> Valid())
    {
      t := tokens[pos];
      pos := pos + 1;
    }

    method ParseField() returns (r: Result<FieldPath>)
      requires Valid()
      modifies `pos
      ensures Agrees(FieldOf(env, old(Rest())), r)
      ensures pos >= old(pos)
    {
      if !Peek().Ident? { return Err; }
      var t := Take();
      r := if t.text in env.fields then Ok(env.fields[t.text]) else Err;
    }

    method ParseOperator() returns (r: Result<Op>)
      requires Valid()
      modifies `pos
      ensures Agrees(OperatorOf(old(Rest())), r)
      ensures pos >= old(pos)
    {
      var t := Peek();
      r := Err;
      if t.Symbol? && IsSymbol(t.op) {
        r := Ok(t.op);
      } else if t == Ident("contains") {
        r := Ok(Has);
      } else if t == Ident("startswith") {
        r := Ok(Starts);
      } else if t == Ident("endswith") {
        r := Ok(Ends);
      }
      if r.Ok? { t := Take(); }
    }

    method ParseValue() returns (r: Result<Literal>)
      requires Valid()
      modifies `pos
      ensures Agrees(ValueOf(env, old(Rest())), r)
      ensures pos > old(pos)
    {
      var t := Take();
      match t
      case Quoted(text) => r := Ok(Literal(text, 0.0, false));
      case Ident(text) => r := Ok(Literal(text, 0.0, false));
      case Number(text) =>
        var num := env.lib.parseFloat(text);
        r := if num.Some? then Ok(Literal(text, num.value, true)) else Err;
      case _ => r := Err;
    }

    method ParseValues() returns (r: Result<seq<Literal>>)
      requires Valid()
      modifies `pos
      ensures Agrees(ValuesOf(env, [], old(Rest())), r)
      ensures pos > old(pos)
    {
      var values: seq<Literal> := [];
      while true
        invariant Valid() && pos >= old(pos)
        invariant ValuesOf(env, values, Rest()) == ValuesOf(env, [], old(Rest()))
        decreases |tokens| - pos
      {
        var v := ParseValue();
        if v.Err? { return Err; }
        if Peek() != Comma { return Ok(values + [v.value]); }
        var t := Take();
        values := values + [v.value];
      }
    }

    method ParseIn(field: FieldPath) returns (r: Result<Expr>)
      requires Valid()
      modifies `pos
      ensures Agrees(InOf(env, field, old(Rest())), r)
      ensures pos >= old(pos)
    {
      if Peek() != LParen { return Err; }
      var t := Take();
      var values := ParseValues();
      if values.Err? || Peek() != RParen { return Err; }
      t := Take();
      r := Ok(Compare(Comparison(field, In, PLAIN, values.value)));
    }

    method ParseComparison() returns (r: Result<Expr>)
      requires Valid()
      modifies `pos
      ensures Agrees(ComparisonOf(env, old(Rest())), r)
      ensures pos >= old(pos)
    {
      var field := ParseField();
      if field.Err? { return Err; }
      if IsKeyword("in") {
        var t := Take();
        r := ParseIn(field.value);
        return;
      }
      var op := ParseOperator();
      if op.Err? { return Err; }
      var v := ParseValue();
      if v.Err? || (op.value == Like && !env.lib.regexOk(v.value.text)) { return Err; }
      r := Ok(Compare(Comparison(field.value, op.value, v.value, [])));
    }

    method ParseUnary() returns (r: Result<Expr>)
      requires Valid()
      modifies `pos
      ensures Agrees(UnaryOf(env, old(Rest())), r)
      ensures pos >= old(pos) && (r.Ok? ==> pos > old(pos))
      decreases |tokens| - pos, 0
    {
      if IsKeyword("not") {
        var t := Take();
        var inner := ParseUnary();
        return if inner.Ok? then Ok(Not(inner.value)) else Err;
      }
      if Peek() == LParen {
        var t := Take();
        var inner := ParseOr();
        if inner.Err? || Peek() != RParen { return Err; }
        t := Take();
        return inner;
      }
      r := ParseComparison();
    }

    method ParseAnd() returns (r: Result<Expr>)
      requires Valid()
      modifies `pos
      ensures Agrees(AndOf(env, old(Rest())), r)
      ensures pos >= old(pos) && (r.Ok? ==> pos > old(pos))
      decreases |tokens| - pos, 1
    {
      r := ParseUnary();
      if r.Err? { return; }
      while IsKeyword("and")
        invariant Valid() && pos > old(pos) && r.Ok?
        invariant AndMore(env, r.value, Rest()) == AndOf(env, old(Rest()))
        decreases |tokens| - pos
      {
        var t := Take();
        var right := ParseUnary();
        if right.Err? { return Err; }
        r := Ok(And(r.value, right.value));
      }
    }

    method ParseOr() returns (r: Result<Expr>)
      requires Valid()
      modifies `pos
      ensures Agrees(OrOf(env, old(Rest())), r)
      ensures pos >= old(pos) && (r.Ok? ==> pos > old(pos))
      decreases |tokens| - pos, 2
    {
      r := ParseAnd();
      if r.Err? { return; }
      while IsKeyword("or")
        invariant Valid() && pos > old(pos) && r.Ok?
        invariant OrMore(env, r.value, Rest()) == OrOf(env, old(Rest()))
        decreases |tokens| - pos
      {
        var t := Take();
        var right := ParseAnd();
        if right.Err? { return Err; }
        r := Ok(Or(r.value, right.value));
      }
    }

    method ParseClass() returns (r: Result<ClassRef>)
      requires Valid()
      modifies `pos
      ensures Agrees(ClassOf(old(Rest())), r)
      ensures pos >= old(pos)
    {
      if !Peek().Ident? { return Err; }
      var t := Take();
      r := Ok(if t.text == "event" || t.text == "any" then AnyClass else Class(t.text));
    }

    method ParseWhere() returns (r: Result<Option<Expr>>)
      requires Valid()
      modifies `pos
      ensures Agrees(WhereOf(env, old(Rest())), r)
      ensures pos >= old(pos)
    {
      if !IsKeyword("where") { return Ok(None); }
      var t := Take();
      var x := ParseOr();
      r := if x.Ok? then Ok(Some(x.value)) else Err;
    }

    method ParsePipe() returns (r: Result<Pipe>)
      requires Valid()
      modifies `pos
      ensures Agrees(PipeOf(env, old(Rest())), r)
      ensures pos >= old(pos)
    {
      if IsKeyword("where") {
        var t := Take();
        var x := ParseOr();
        return if x.Ok? then Ok(Where(x.value)) else Err;
      }
      if !IsKeyword("limit") { return Err; }
      ghost var start := Rest();
      var t := Take();
      assert Peek() == start[1];
      if !Peek().Number? { return Err; }
      t := Take();
      assert Rest() == start[2..];
      r := if ParseInt(t.text).Some? then Ok(Limit(ParseInt(t.text).value)) else Err;
    }

    method ParseSimple() returns (r: Result<Query>)
      requires Valid()
      modifies `pos
      ensures Agrees(SimpleOf(env, old(Rest())), r)
    {
      var k := ParseClass();
      if k.Err? { return Err; }
      var w := ParseWhere();
      if w.Err? { return Err; }
      var pipes: seq<Pipe> := [];
      ghost var start := Rest();
      while Peek() == Bar
        invariant Valid()
        invariant PipesOf(env, pipes, Rest()) == PipesOf(env, [], start)
        decreases |tokens| - pos
      {
        var t := Take();
        var p := ParsePipe();
        if p.Err? { return Err; }
        pipes := pipes + [p.value];
      }
      r := Ok(Simple(k.value, w.value, pipes));
    }

    method ParseStage() returns (r: Result<Stage>)
      requires Valid()
      modifies `pos
      ensures Agrees(StageOf(env, old(Rest())), r)
      ensures pos >= old(pos)
    {
      var k := ParseClass();
      if k.Err? { return Err; }
      var w := ParseWhere();
      r := if w.Ok? then Ok(Stage(k.value, w.value)) else Err;
    }

    method ParseDuration() returns (r: Result<int>)
      requires Valid()
      modifies `pos
      ensures Agrees(DurationOf(env, old(Rest())), r)
    {
      var t := Take();
      var d := DurationValue(env, t);
      r := if d.Some? then Ok(d.value) else Err;
    }

    method ParseStages() returns (r: Result<seq<Stage>>)
      requires Valid()
      modifies `pos
      ensures Agrees(StagesOf(env, [], old(Rest())), r)
    {
      var stages: seq<Stage> := [];
      while true
        invariant Valid()
        invariant StagesOf(env, stages, Rest()) == StagesOf(env, [], old(Rest()))
        decreases |tokens| - pos
      {
        var s := ParseStage();
        if s.Err? { return Err; }
        if Peek() != Semicolon { return Ok(stages + [s.value]); }
        var t := Take();
        stages := stages + [s.value];
      }
    }

    method ParseBy() returns (r: Result<FieldPath>)
      requires Valid()
      modifies `pos
      ensures Agrees(ByOf(env, old(Rest())), r)
    {
      if !IsKeyword("by") { return Ok(NoField); }
      var t := Take();
      r := ParseField();
    }

    method ParseWithin() returns (r: Result<int>)
      requires Valid()
      modifies `pos
      ensures Agrees(WithinOf(env, old(Rest())), r)
    {
      if !IsKeyword("within") { return Ok(0); }
      var t := Take();
      r := ParseDuration();
    }

    method ParseBody() returns (r: Result<seq<Stage>>)
      requires Valid()
      modifies `pos
      ensures Agrees(BodyOf(env, old(Rest())), r)
    {
      if Peek() != Colon { return Err; }
      var t := Take();
      r := ParseStages();
      if r.Ok? && |r.value| < 2 { r := Err; }
    }

    /** The keyword `sequence` is under the position. */
    method ParseSequence() returns (r: Result<Query>)
      requires Valid() && IsKeyword("sequence")
      modifies `pos
      ensures Agrees(SequenceOf(env, old(Rest())[1..]), r)
    {
      var t := Take();
      var groupField := ParseBy();
      if groupField.Err? { return Err; }
      var within := ParseWithin();
      if within.Err? { return Err; }
      var stages := ParseBody();
      if stages.Err? { return Err; }
      r := Ok(Sequence(groupField.value, within.value, stages.value));
    }

    method ParseQuery() returns (r: Result<Query>)
      requires Valid()
      modifies `pos
      ensures Agrees(QueryOf(env, old(Rest())), r)
    {
      if IsKeyword("sequence") {
        r := ParseSequence();
      } else {
        r := ParseSimple();
      }
    }
  }

  /** The whole parse, for every token list that ends in EOF. */
  method Parse(env: Env, tokens: seq<Token>) returns (r: Result<Query>)
    requires tokens != [] && tokens[|tokens| - 1] == EOF
    ensures r == ParseTokens(env, tokens)
  {
    var p := new Parser(env, tokens);
    r := p.ParseQuery();
    if r.Ok? && p.Peek() != EOF { r := Err; }
  }
}
