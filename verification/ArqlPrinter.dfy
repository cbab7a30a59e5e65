/** Printing queries as tokens with the fewest parentheses, and the two round trips: the
    parser reads back every printed query, and prints-and-reads back everything it accepts.
    The printer writes `and` and `or` chains without parentheses exactly where `and` binds
    tighter and both associate to the left, so the round trip fixes both. */
module ArqlPrinter {
  import opened Text
  import opened Model
  import opened Stdlib
  import opened Arql
  import opened ArqlParser

  // ----- the printer -----

  function PrintOp(op: Op): (t: Token) {
    match op
    case Has => Ident("contains")
    case Starts => Ident("startswith")
    case Ends => Ident("endswith")
    case In => Ident("in")
    case _ => Symbol(op)
  }

  function PrintLiteral(v: Literal): (t: Token) {
    if v.isNum then Number(v.text) else Quoted(v.text)
  }

  function PrintLiterals(vs: seq<Literal>): (ts: seq<Token>)
    requires vs != []
  {
    if |vs| == 1 then [PrintLiteral(vs[0])]
    else [PrintLiteral(vs[0]), Comma] + PrintLiterals(vs[1..])
  }

  function PrintComparison(c: Comparison): (ts: seq<Token>) {
    var field := Ident(PathText(c.field));
    if c.op == In then
      if c.values == [] then [] else [field, Ident("in"), LParen] + PrintLiterals(c.values) + [RParen]
    else [field, PrintOp(c.op), PrintLiteral(c.value)]
  }

  function PrintUnary(x: Expr): (ts: seq<Token>)
    decreases x, 0
  {
    match x
    case Not(i) => [Ident("not")] + PrintUnary(i)
    case Compare(c) => PrintComparison(c)
    case And(l, r) => [LParen] + (PrintAnd(l) + ([Ident("and")] + PrintUnary(r))) + [RParen]
    case Or(l, r) => [LParen] + (PrintOr(l) + ([Ident("or")] + PrintAnd(r))) + [RParen]
  }

  function PrintAnd(x: Expr): (ts: seq<Token>)
    decreases x, 1
  {
    if x.And? then PrintAnd(x.left) + ([Ident("and")] + PrintUnary(x.right)) else PrintUnary(x)
  }

  function PrintOr(x: Expr): (ts: seq<Token>)
    decreases x, 2
  {
    if x.Or? then PrintOr(x.left) + ([Ident("or")] + PrintAnd(x.right)) else PrintAnd(x)
  }

  // ----- what can be printed -----

  predicate FieldPrints(env: Env, f: FieldPath) {
    PathText(f) in env.fields && env.fields[PathText(f)] == f
  }

  predicate LiteralPrints(env: Env, v: Literal) {
    if v.isNum then env.lib.parseFloat(v.text) == Some(v.num) else v.num == 0.0
  }

  /** A field named like a keyword would be read as one; the known fields never are. */
  predicate Reserved(word: string) {
    word == "not"
  }

  ghost predicate ComparisonPrints(env: Env, c: Comparison) {
    && FieldPrints(env, c.field) && !Reserved(PathText(c.field))
    && if c.op == In then
         c.value == PLAIN && c.values != [] && forall i :: 0 <= i < |c.values| ==> LiteralPrints(env, c.values[i])
       else
         c.values == [] && LiteralPrints(env, c.value) && (c.op == Like ==> env.lib.regexOk(c.value.text))
  }

  ghost predicate Prints(env: Env, x: Expr) {
    match x
    case And(l, r) => Prints(env, l) && Prints(env, r)
    case Or(l, r) => Prints(env, l) && Prints(env, r)
    case Not(i) => Prints(env, i)
    case Compare(c) => ComparisonPrints(env, c)
  }

  // ----- reading back what was printed -----

  lemma {:induction false} LiteralsReadBack(env: Env, read: seq<Literal>, vs: seq<Literal>, rest: seq<Token>)
    requires vs != [] && forall i :: 0 <= i < |vs| ==> LiteralPrints(env, vs[i])
    ensures ValuesOf(env, read, PrintLiterals(vs) + ([RParen] + rest)) == Yes(read + vs, [RParen] + rest)
    decreases |vs|
  {
    var ts := PrintLiterals(vs) + ([RParen] + rest);
    assert ts[0] == PrintLiteral(vs[0]);
    if |vs| == 1 {
      assert ts[1..] == [RParen] + rest;
      assert vs == [vs[0]];
    } else {
      var more := PrintLiterals(vs[1..]) + ([RParen] + rest);
      assert ts == [PrintLiteral(vs[0]), Comma] + more;
      assert ts[1..][1..] == more;
      LiteralsReadBack(env, read + [vs[0]], vs[1..], rest);
      MoveHead(read, vs);
    }
  }

  lemma InListReadsBack(env: Env, c: Comparison, rest: seq<Token>)
    requires ComparisonPrints(env, c) && c.op == In
    ensures InOf(env, c.field, [LParen] + (PrintLiterals(c.values) + ([RParen] + rest))) == Yes(Compare(c), rest)
  {
    var inner := PrintLiterals(c.values) + ([RParen] + rest);
    LiteralsReadBack(env, [], c.values, rest);
    assert ([LParen] + inner)[1..] == inner;
    assert [] + c.values == c.values && ([RParen] + rest)[1..] == rest;
  }

  lemma InReadsBack(env: Env, c: Comparison, rest: seq<Token>)
    requires ComparisonPrints(env, c) && c.op == In
    ensures ComparisonOf(env, PrintComparison(c) + rest) == Yes(Compare(c), rest)
  {
    var list := [LParen] + (PrintLiterals(c.values) + ([RParen] + rest));
    var ts := [Ident(PathText(c.field))] + ([Ident("in")] + list);
    assert PrintComparison(c) + rest == ts;
    assert ts[1..] == [Ident("in")] + list && ([Ident("in")] + list)[1..] == list;
    InListReadsBack(env, c, rest);
  }

  lemma OperatorReadsBack(op: Op, rest: seq<Token>)
    requires op != In
    ensures OperatorOf([PrintOp(op)] + rest) == Yes(op, rest) && !Kw([PrintOp(op)] + rest, "in")
  {
    assert ([PrintOp(op)] + rest)[1..] == rest;
  }

  lemma LiteralReadsBack(env: Env, v: Literal, rest: seq<Token>)
    requires LiteralPrints(env, v)
    ensures ValueOf(env, [PrintLiteral(v)] + rest) == Yes(v, rest)
  {
    assert ([PrintLiteral(v)] + rest)[1..] == rest;
  }

  lemma TestReadsBack(env: Env, c: Comparison, rest: seq<Token>)
    requires ComparisonPrints(env, c) && c.op != In
    ensures ComparisonOf(env, PrintComparison(c) + rest) == Yes(Compare(c), rest)
  {
    var afterOp := [PrintLiteral(c.value)] + rest;
    var afterField := [PrintOp(c.op)] + afterOp;
    assert PrintComparison(c) + rest == [Ident(PathText(c.field))] + afterField;
    assert ([Ident(PathText(c.field))] + afterField)[1..] == afterField;
    OperatorReadsBack(c.op, afterOp);
    LiteralReadsBack(env, c.value, rest);
  }

  lemma ComparisonReadsBack(env: Env, c: Comparison, rest: seq<Token>)
    requires ComparisonPrints(env, c)
    ensures UnaryOf(env, PrintComparison(c) + rest) == Yes(Compare(c), rest)
  {
    if c.op == In { InReadsBack(env, c, rest); } else { TestReadsBack(env, c, rest); }
    assert PrintComparison(c)[0] == Ident(PathText(c.field));
  }

  lemma {:induction false} UnaryReadsBack(env: Env, x: Expr, rest: seq<Token>)
    requires Prints(env, x)
    ensures UnaryOf(env, PrintUnary(x) + rest) == Yes(x, rest)
    decreases x, 1
  {
    match x
    case Compare(c) => ComparisonReadsBack(env, c, rest);
    case Not(i) =>
      UnaryReadsBack(env, i, rest);
      assert (PrintUnary(x) + rest)[1..] == PrintUnary(i) + rest;
    case And(l, r) =>
      var inner := PrintAnd(l) + ([Ident("and")] + PrintUnary(r));
      AndChain(env, l, r, [RParen] + rest);
      AndEnds(env, inner + ([RParen] + rest), x, [RParen] + rest);
      Parenthesised(env, inner, x, rest);
    case Or(l, r) =>
      var inner := PrintOr(l) + ([Ident("or")] + PrintAnd(r));
      OrChain(env, l, r, [RParen] + rest);
      Parenthesised(env, inner, x, rest);
  }

  lemma Parenthesised(env: Env, inner: seq<Token>, x: Expr, rest: seq<Token>)
    requires OrOf(env, inner + ([RParen] + rest)) == OrMore(env, x, [RParen] + rest)
    ensures UnaryOf(env, [LParen] + inner + [RParen] + rest) == Yes(x, rest)
  {
    var ts := [LParen] + inner + [RParen] + rest;
    assert ts[1..] == inner + ([RParen] + rest);
    assert ([RParen] + rest)[1..] == rest;
  }

  lemma AndStep(env: Env, left: Expr, ts: seq<Token>, x: Expr, more: seq<Token>)
    requires UnaryOf(env, ts) == Yes(x, more)
    ensures AndMore(env, left, [Ident("and")] + ts) == AndMore(env, And(left, x), more)
  {
    assert ([Ident("and")] + ts)[1..] == ts;
  }

  lemma OrStep(env: Env, left: Expr, ts: seq<Token>, x: Expr, more: seq<Token>)
    requires AndOf(env, ts) == Yes(x, more)
    ensures OrMore(env, left, [Ident("or")] + ts) == OrMore(env, Or(left, x), more)
  {
    assert ([Ident("or")] + ts)[1..] == ts;
  }

  lemma Regroup<T>(a: seq<T>, k: T, b: seq<T>, c: seq<T>)
    ensures a + ([k] + b) + c == a + ([k] + (b + c))
  {
    Assoc(a, [k] + b, c);
    Assoc([k], b, c);
  }

  lemma {:induction false} AndChain(env: Env, l: Expr, r: Expr, rest: seq<Token>)
    requires Prints(env, l) && Prints(env, r)
    ensures
      AndOf(env, PrintAnd(l) + ([Ident("and")] + PrintUnary(r)) + rest) == AndMore(env, And(l, r), rest)
    decreases And(l, r), 0
  {
    var more := PrintUnary(r) + rest;
    AndReadsBack(env, l, [Ident("and")] + more);
    UnaryReadsBack(env, r, rest);
    AndStep(env, l, more, r, rest);
    Regroup(PrintAnd(l), Ident("and"), PrintUnary(r), rest);
  }

  /** An `and` chain that ends is a whole operand of `or`. */
  lemma AndEnds(env: Env, ts: seq<Token>, x: Expr, rest: seq<Token>)
    requires AndOf(env, ts) == AndMore(env, x, rest) && !Kw(rest, "and")
    ensures AndOf(env, ts) == Yes(x, rest) && OrOf(env, ts) == OrMore(env, x, rest)
  {
  }

  lemma {:induction false} OrChain(env: Env, l: Expr, r: Expr, rest: seq<Token>)
    requires Prints(env, l) && Prints(env, r) && !Kw(rest, "and")
    ensures OrOf(env, PrintOr(l) + ([Ident("or")] + PrintAnd(r)) + rest) == OrMore(env, Or(l, r), rest)
    decreases Or(l, r), 0
  {
    var more := PrintAnd(r) + rest;
    OrReadsBack(env, l, [Ident("or")] + more);
    AndReadsBack(env, r, rest);
    AndEnds(env, more, r, rest);
    OrStep(env, l, more, r, rest);
    Regroup(PrintOr(l), Ident("or"), PrintAnd(r), rest);
  }

  lemma {:induction false} AndReadsBack(env: Env, x: Expr, rest: seq<Token>)
    requires Prints(env, x)
    ensures AndOf(env, PrintAnd(x) + rest) == AndMore(env, x, rest)
    decreases x, 2
  {
    if x.And? {
      AndChain(env, x.left, x.right, rest);
    } else {
      UnaryReadsBack(env, x, rest);
    }
  }

  /** Reading a printed expression leaves the loop of parseOr holding exactly that tree. */
  lemma {:induction false} OrReadsBack(env: Env, x: Expr, rest: seq<Token>)
    requires Prints(env, x) && !Kw(rest, "and")
    ensures OrOf(env, PrintOr(x) + rest) == OrMore(env, x, rest)
    decreases x, 3
  {
    if x.Or? {
      OrChain(env, x.left, x.right, rest);
    } else {
      AndReadsBack(env, x, rest);
      AndEnds(env, PrintAnd(x) + rest, x, rest);
    }
  }

  // ----- whole queries -----

  /** A token that cannot continue an expression, a where clause or a header. */
  predicate Stops(rest: seq<Token>) {
    rest != [] && !rest[0].Ident?
  }

  function PrintClass(k: ClassRef): (t: Token) {
    if k.AnyClass? then Ident("any") else Ident(k.action)
  }

  function PrintWhere(x: Option<Expr>): (ts: seq<Token>) {
    if x.None? then [] else [Ident("where")] + PrintOr(x.value)
  }

  function PrintPipe(p: Pipe): (ts: seq<Token>) {
    match p
    case Where(x) => [Ident("where")] + PrintOr(x)
    case Limit(n) => [Ident("limit"), Number(FormatInt(n))]
  }

  function PrintPipes(ps: seq<Pipe>): (ts: seq<Token>) {
    if ps == [] then [] else [Bar] + (PrintPipe(ps[0]) + PrintPipes(ps[1..]))
  }

  function PrintStage(s: Stage): (ts: seq<Token>) {
    [PrintClass(s.class_)] + PrintWhere(s.filter)
  }

  function PrintStages(ss: seq<Stage>): (ts: seq<Token>)
    requires ss != []
  {
    if |ss| == 1 then PrintStage(ss[0]) else PrintStage(ss[0]) + [Semicolon] + PrintStages(ss[1..])
  }

  function PrintBy(f: FieldPath): (ts: seq<Token>) {
    if f == NoField then [] else [Ident("by"), Ident(PathText(f))]
  }

  /** The token t stands for the window d; a zero window is not written. */
  predicate DurationPrints(env: Env, d: int, t: Token) {
    d != 0 ==> DurationValue(env, t) == Some(d)
  }

  function PrintWithin(d: int, t: Token): (ts: seq<Token>) {
    if d == 0 then [] else [Ident("within"), t]
  }

  predicate ClassPrints(k: ClassRef) {
    k.Class? ==> k.action != "event" && k.action != "any"
  }

  ghost predicate FilterPrints(env: Env, x: Option<Expr>) {
    x.Some? ==> Prints(env, x.value)
  }

  ghost predicate PipePrints(env: Env, p: Pipe) {
    match p
    case Where(x) => Prints(env, x)
    case Limit(n) => MIN_INT64 <= n <= MAX_INT64
  }

  ghost predicate StagePrints(env: Env, s: Stage) {
    ClassPrints(s.class_) && FilterPrints(env, s.filter)
  }

  /** The queries that have a token form, t standing for the window of a sequence. */
  ghost predicate QueryPrints(env: Env, q: Query, t: Token) {
    match q
    case Simple(k, x, ps) =>
      ClassPrints(k) && k != Class("sequence") && FilterPrints(env, x) &&
      forall i :: 0 <= i < |ps| ==> PipePrints(env, ps[i])
    case Sequence(f, d, ss) =>
      |ss| >= 2 && (f != NoField ==> FieldPrints(env, f)) && DurationPrints(env, d, t) &&
      forall i :: 0 <= i < |ss| ==> StagePrints(env, ss[i])
  }

  function PrintQuery(q: Query, t: Token): (ts: seq<Token>)
    requires q.Sequence? ==> q.stages != []
  {
    match q
    case Simple(k, x, ps) => [PrintClass(k)] + (PrintWhere(x) + (PrintPipes(ps) + [EOF]))
    case Sequence(f, d, ss) =>
      [Ident("sequence")] + (PrintBy(f) + (PrintWithin(d, t) + ([Colon] + (PrintStages(ss) + [EOF]))))
  }

  lemma FilterReadsBack(env: Env, x: Expr, rest: seq<Token>)
    requires Prints(env, x) && Stops(rest)
    ensures OrOf(env, PrintOr(x) + rest) == Yes(x, rest)
  {
    OrReadsBack(env, x, rest);
  }

  lemma WhereReadsBack(env: Env, x: Option<Expr>, rest: seq<Token>)
    requires FilterPrints(env, x) && Stops(rest)
    ensures WhereOf(env, PrintWhere(x) + rest) == Yes(x, rest)
  {
    if x.None? {
      assert PrintWhere(x) + rest == rest;
    } else {
      FilterReadsBack(env, x.value, rest);
      assert (PrintWhere(x) + rest)[1..] == PrintOr(x.value) + rest;
    }
  }

  lemma PipeReadsBack(env: Env, p: Pipe, rest: seq<Token>)
    requires PipePrints(env, p) && Stops(rest)
    ensures PipeOf(env, PrintPipe(p) + rest) == Yes(p, rest)
  {
    var ts := PrintPipe(p) + rest;
    match p
    case Where(x) =>
      FilterReadsBack(env, x, rest);
      assert ts[1..] == PrintOr(x) + rest;
    case Limit(n) =>
      ParseFormatInt(n);
      assert ts[1] == Number(FormatInt(n)) && ts[2..] == rest;
  }

  lemma {:induction false} PipesReadBack(env: Env, read: seq<Pipe>, ps: seq<Pipe>, rest: seq<Token>)
    requires (forall i :: 0 <= i < |ps| ==> PipePrints(env, ps[i])) && rest != [] && rest[0] == EOF
    ensures PipesOf(env, read, PrintPipes(ps) + rest) == Yes(read + ps, rest)
    decreases |ps|
  {
    if ps == [] {
      assert PrintPipes(ps) + rest == rest && read + ps == read;
    } else {
      var more := PrintPipes(ps[1..]) + rest;
      PipesReadBack(env, read + [ps[0]], ps[1..], rest);
      MoveHead(read, ps);
      PipesStop(ps[1..], rest);
      PipesStep(env, read, ps[0], more);
      PipesSplit(ps, rest);
    }
  }

  lemma PipesSplit(ps: seq<Pipe>, rest: seq<Token>)
    requires ps != []
    ensures PrintPipes(ps) + rest == [Bar] + (PrintPipe(ps[0]) + (PrintPipes(ps[1..]) + rest))
  {
  }

  lemma PipesStop(ps: seq<Pipe>, rest: seq<Token>)
    requires rest != [] && rest[0] == EOF
    ensures Stops(PrintPipes(ps) + rest)
  {
    if ps == [] { assert PrintPipes(ps) + rest == rest; } else { assert (PrintPipes(ps) + rest)[0] == Bar; }
  }

  lemma PipesStep(env: Env, read: seq<Pipe>, p: Pipe, more: seq<Token>)
    requires PipePrints(env, p) && Stops(more)
    ensures PipesOf(env, read, [Bar] + (PrintPipe(p) + more)) == PipesOf(env, read + [p], more)
  {
    assert ([Bar] + (PrintPipe(p) + more))[1..] == PrintPipe(p) + more;
    PipeReadsBack(env, p, more);
  }

  lemma StageReadsBack(env: Env, s: Stage, rest: seq<Token>)
    requires StagePrints(env, s) && Stops(rest)
    ensures StageOf(env, PrintStage(s) + rest) == Yes(s, rest)
  {
    var ts := PrintStage(s) + rest;
    assert ts[0] == PrintClass(s.class_) && ts[1..] == PrintWhere(s.filter) + rest;
    WhereReadsBack(env, s.filter, rest);
  }

  lemma StagesStep(env: Env, read: seq<Stage>, s: Stage, more: seq<Token>)
    requires StagePrints(env, s)
    ensures StagesOf(env, read, PrintStage(s) + ([Semicolon] + more)) == StagesOf(env, read + [s], more)
  {
    StageReadsBack(env, s, [Semicolon] + more);
    assert ([Semicolon] + more)[1..] == more;
  }

  lemma {:induction false} StagesReadBack(env: Env, read: seq<Stage>, ss: seq<Stage>, rest: seq<Token>)
    requires ss != [] && (forall i :: 0 <= i < |ss| ==> StagePrints(env, ss[i])) && rest != [] && rest[0] == EOF
    ensures StagesOf(env, read, PrintStages(ss) + rest) == Yes(read + ss, rest)
    decreases |ss|
  {
    if |ss| == 1 {
      StageReadsBack(env, ss[0], rest);
      assert [ss[0]] == ss;
    } else {
      var more := PrintStages(ss[1..]) + rest;
      StagesReadBack(env, read + [ss[0]], ss[1..], rest);
      StagesStep(env, read, ss[0], more);
      MoveHead(read, ss);
      Assoc(PrintStage(ss[0]), [Semicolon], PrintStages(ss[1..]));
      Regroup(PrintStage(ss[0]), Semicolon, PrintStages(ss[1..]), rest);
    }
  }

  lemma ByReadsBack(env: Env, f: FieldPath, rest: seq<Token>)
    requires (f != NoField ==> FieldPrints(env, f)) && !Kw(rest, "by")
    ensures ByOf(env, PrintBy(f) + rest) == Yes(f, rest)
  {
    var ts := PrintBy(f) + rest;
    if f == NoField {
      assert ts == rest;
    } else {
      assert ts[1..][0] == Ident(PathText(f)) && ts[1..][1..] == rest;
    }
  }

  lemma WithinReadsBack(env: Env, d: int, t: Token, rest: seq<Token>)
    requires DurationPrints(env, d, t) && Stops(rest)
    ensures WithinOf(env, PrintWithin(d, t) + rest) == Yes(d, rest)
    ensures !Kw(PrintWithin(d, t) + rest, "by")
  {
    var ts := PrintWithin(d, t) + rest;
    if d == 0 {
      assert ts == rest;
    } else {
      assert ts[1..][0] == t && ts[1..][1..] == rest;
    }
  }

  lemma BodyStep(env: Env, ts: seq<Token>, ss: seq<Stage>, rest: seq<Token>)
    requires |ss| >= 2 && StagesOf(env, [], ts) == Yes(ss, rest)
    ensures BodyOf(env, [Colon] + ts) == Yes(ss, rest)
  {
    assert ([Colon] + ts)[1..] == ts;
  }

  lemma BodyReadsBack(env: Env, ss: seq<Stage>)
    requires |ss| >= 2 && forall i :: 0 <= i < |ss| ==> StagePrints(env, ss[i])
    ensures BodyOf(env, [Colon] + (PrintStages(ss) + [EOF])) == Yes(ss, [EOF])
  {
    var ts := PrintStages(ss) + [EOF];
    assert StagesOf(env, [], ts) == Yes(ss, [EOF]) by {
      StagesReadBack(env, [], ss, [EOF]);
      assert [] + ss == ss;
    }
    BodyStep(env, ts, ss, [EOF]);
  }

  lemma SequenceSteps(env: Env, ts: seq<Token>, q: Query, header: seq<Token>, body: seq<Token>)
    requires q.Sequence? && ByOf(env, ts) == Yes(q.groupField, header)
    requires WithinOf(env, header) == Yes(q.within, body) && BodyOf(env, body) == Yes(q.stages, [EOF])
    ensures QueryOf(env, [Ident("sequence")] + ts) == Yes(q, [EOF])
  {
    assert ([Ident("sequence")] + ts)[1..] == ts;
  }

  lemma SequenceReadsBack(env: Env, q: Query, t: Token)
    requires QueryPrints(env, q, t) && q.Sequence?
    ensures QueryOf(env, PrintQuery(q, t)) == Yes(q, [EOF])
  {
    var body := [Colon] + (PrintStages(q.stages) + [EOF]);
    var header := PrintWithin(q.within, t) + body;
    BodyReadsBack(env, q.stages);
    WithinReadsBack(env, q.within, t, body);
    ByReadsBack(env, q.groupField, header);
    SequenceSteps(env, PrintBy(q.groupField) + header, q, header, body);
  }

  lemma ClassReadsBack(k: ClassRef, rest: seq<Token>)
    requires ClassPrints(k)
    ensures ClassOf([PrintClass(k)] + rest) == Yes(k, rest)
  {
    assert ([PrintClass(k)] + rest)[1..] == rest;
  }

  lemma AllPipesReadBack(env: Env, ps: seq<Pipe>)
    requires forall i :: 0 <= i < |ps| ==> PipePrints(env, ps[i])
    ensures Stops(PrintPipes(ps) + [EOF]) && PipesOf(env, [], PrintPipes(ps) + [EOF]) == Yes(ps, [EOF])
  {
    PipesReadBack(env, [], ps, [EOF]);
    assert [] + ps == ps;
    PipesStop(ps, [EOF]);
  }

  lemma SimpleReadsBack(env: Env, q: Query, t: Token)
    requires QueryPrints(env, q, t) && q.Simple?
    ensures QueryOf(env, PrintQuery(q, t)) == Yes(q, [EOF])
  {
    var pipes := PrintPipes(q.pipes) + [EOF];
    AllPipesReadBack(env, q.pipes);
    WhereReadsBack(env, q.filter, pipes);
    ClassReadsBack(q.class_, PrintWhere(q.filter) + pipes);
  }

  /** Every query that has a token form is parsed from it. */
  lemma QueryReadsBack(env: Env, q: Query, t: Token)
    requires QueryPrints(env, q, t)
    ensures ParseTokens(env, PrintQuery(q, t)) == Ok(q)
  {
    if q.Simple? { SimpleReadsBack(env, q, t); } else { SequenceReadsBack(env, q, t); }
    ParseEnds(env, PrintQuery(q, t), q);
  }

  lemma ParseEnds(env: Env, ts: seq<Token>, q: Query)
    requires QueryOf(env, ts) == Yes(q, [EOF])
    ensures ParseTokens(env, ts) == Ok(q)
  {
  }

  // ----- everything the parser accepts has a token form -----

  /** The field table maps each dotted path to the field of that name, and no path is a
      keyword of the grammar. */
  ghost predicate FieldTable(env: Env) {
    forall s :: s in env.fields ==>
      KnownField(env.fields[s]) && PathText(env.fields[s]) == s && !Reserved(s)
  }

  lemma {:induction false} AcceptedValues(env: Env, read: seq<Literal>, ts: seq<Token>)
    requires (forall i :: 0 <= i < |read| ==> LiteralPrints(env, read[i])) && ValuesOf(env, read, ts).Yes?
    ensures
      var vs := ValuesOf(env, read, ts).value;
      vs != [] && forall i :: 0 <= i < |vs| ==> LiteralPrints(env, vs[i])
    decreases |ts|
  {
    var v := ValueOf(env, ts);
    assert LiteralPrints(env, v.value);
    if Next(v.rest, Comma) { AcceptedValues(env, read + [v.value], v.rest[1..]); }
  }

  lemma AcceptedComparison(env: Env, ts: seq<Token>)
    requires FieldTable(env) && ComparisonOf(env, ts).Yes?
    ensures Prints(env, ComparisonOf(env, ts).value)
  {
    var f := FieldOf(env, ts);
    if Kw(f.rest, "in") {
      AcceptedValues(env, [], f.rest[1..][1..]);
    }
  }

  lemma {:induction false} AcceptedUnary(env: Env, ts: seq<Token>)
    requires FieldTable(env) && UnaryOf(env, ts).Yes?
    ensures Prints(env, UnaryOf(env, ts).value)
    decreases |ts|, 0
  {
    if Kw(ts, "not") {
      AcceptedUnary(env, ts[1..]);
    } else if Next(ts, LParen) {
      AcceptedOr(env, ts[1..]);
    } else {
      AcceptedComparison(env, ts);
    }
  }

  lemma {:induction false} AcceptedAnd(env: Env, ts: seq<Token>)
    requires FieldTable(env) && AndOf(env, ts).Yes?
    ensures Prints(env, AndOf(env, ts).value)
    decreases |ts|, 1
  {
    AcceptedUnary(env, ts);
    AcceptedAndMore(env, UnaryOf(env, ts).value, UnaryOf(env, ts).rest);
  }

  lemma {:induction false} AcceptedAndMore(env: Env, left: Expr, ts: seq<Token>)
    requires FieldTable(env) && Prints(env, left) && AndMore(env, left, ts).Yes?
    ensures Prints(env, AndMore(env, left, ts).value)
    decreases |ts|, 1
  {
    if Kw(ts, "and") {
      AcceptedUnary(env, ts[1..]);
      var x := UnaryOf(env, ts[1..]);
      AcceptedAndMore(env, And(left, x.value), x.rest);
    }
  }

  lemma {:induction false} AcceptedOr(env: Env, ts: seq<Token>)
    requires FieldTable(env) && OrOf(env, ts).Yes?
    ensures Prints(env, OrOf(env, ts).value)
    decreases |ts|, 2
  {
    AcceptedAnd(env, ts);
    AcceptedOrMore(env, AndOf(env, ts).value, AndOf(env, ts).rest);
  }

  lemma {:induction false} AcceptedOrMore(env: Env, left: Expr, ts: seq<Token>)
    requires FieldTable(env) && Prints(env, left) && OrMore(env, left, ts).Yes?
    ensures Prints(env, OrMore(env, left, ts).value)
    decreases |ts|, 2
  {
    if Kw(ts, "or") {
      AcceptedAnd(env, ts[1..]);
      var x := AndOf(env, ts[1..]);
      AcceptedOrMore(env, Or(left, x.value), x.rest);
    }
  }

  lemma AcceptedWhere(env: Env, ts: seq<Token>)
    requires FieldTable(env) && WhereOf(env, ts).Yes?
    ensures FilterPrints(env, WhereOf(env, ts).value)
  {
    if Kw(ts, "where") { AcceptedOr(env, ts[1..]); }
  }

  lemma {:induction false} AcceptedPipes(env: Env, read: seq<Pipe>, ts: seq<Token>)
    requires FieldTable(env) && (forall i :: 0 <= i < |read| ==> PipePrints(env, read[i])) &&
             PipesOf(env, read, ts).Yes?
    ensures forall i :: 0 <= i < |PipesOf(env, read, ts).value| ==> PipePrints(env, PipesOf(env, read, ts).value[i])
    decreases |ts|
  {
    if Next(ts, Bar) {
      var p := PipeOf(env, ts[1..]);
      if Kw(ts[1..], "where") { AcceptedOr(env, ts[1..][1..]); }
      AcceptedPipes(env, read + [p.value], p.rest);
    }
  }

  lemma {:induction false} AcceptedStages(env: Env, read: seq<Stage>, ts: seq<Token>)
    requires FieldTable(env) && (forall i :: 0 <= i < |read| ==> StagePrints(env, read[i])) &&
             StagesOf(env, read, ts).Yes?
    ensures forall i :: 0 <= i < |StagesOf(env, read, ts).value| ==> StagePrints(env, StagesOf(env, read, ts).value[i])
    decreases |ts|
  {
    var s := StageOf(env, ts);
    AcceptedWhere(env, ClassOf(ts).rest);
    assert StagePrints(env, s.value);
    if Next(s.rest, Semicolon) { AcceptedStages(env, read + [s.value], s.rest[1..]); }
  }

  lemma AcceptedSequence(env: Env, ts: seq<Token>) returns (t: Token)
    requires FieldTable(env) && SequenceOf(env, ts).Yes?
    ensures QueryPrints(env, SequenceOf(env, ts).value, t) && (t == EOF || t in ts)
  {
    var header := ByOf(env, ts).rest;
    var within := WithinOf(env, header);
    t := EOF;
    if Kw(header, "within") {
      t := header[1..][0];
      assert t in header[1..] && header[1..][0] in ts;
    }
    AcceptedStages(env, [], within.rest[1..]);
  }

  lemma AcceptedSimple(env: Env, ts: seq<Token>, t: Token)
    requires FieldTable(env) && !Kw(ts, "sequence") && SimpleOf(env, ts).Yes?
    ensures QueryPrints(env, SimpleOf(env, ts).value, t)
  {
    var k := ClassOf(ts);
    AcceptedWhere(env, k.rest);
    AcceptedPipes(env, [], WhereOf(env, k.rest).rest);
  }

  /** Whatever tokens a query was parsed from, printing it and parsing again gives it back,
      with the window written as it was. */
  lemma AcceptedQueriesReadBack(env: Env, ts: seq<Token>) returns (t: Token)
    requires FieldTable(env) && ParseTokens(env, ts).Ok?
    ensures QueryPrints(env, ParseTokens(env, ts).value, t) && (t == EOF || t in ts)
    ensures ParseTokens(env, PrintQuery(ParseTokens(env, ts).value, t)) == ParseTokens(env, ts)
  {
    t := EOF;
    if Kw(ts, "sequence") {
      t := AcceptedSequence(env, ts[1..]);
    } else {
      AcceptedSimple(env, ts, t);
    }
    QueryReadsBack(env, ParseTokens(env, ts).value, t);
  }
}
