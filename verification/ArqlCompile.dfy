/** Compiled queries: their text form is compiled back to them, and they meet what the
    promotion to detection rules asks of a query's literals. */
module ArqlCompile {
  import opened Text
  import opened Model
  import opened Stdlib
  import opened Arql
  import opened ArqlParser
  import opened ArqlPrinter
  import opened ArqlLexer
  import opened ArqlText
  import opened HuntRule

  /** Every known field is written as one identifier. */
  ghost predicate FieldNames(c: Chars, env: Env) {
    forall s :: s in env.fields ==> IdentText(c, s)
  }

  // ----- printed tokens are tokens the lexer makes -----

  lemma WordLexed(c: Chars, w: string)
    requires Sane(c) && w != "" && forall i :: 0 <= i < |w| ==> IsAsciiLetter(w[i])
    ensures AllLexed(c, [Ident(w)])
  {
  }

  lemma Joined(c: Chars, a: seq<Token>, b: seq<Token>)
    requires AllLexed(c, a) && AllLexed(c, b)
    ensures AllLexed(c, a + b)
  {
  }

  lemma LiteralIsLexed(c: Chars, v: Literal)
    requires LiteralLexed(c, v)
    ensures AllLexed(c, [PrintLiteral(v)])
  {
  }

  lemma {:induction false} LiteralsAreLexed(c: Chars, vs: seq<Literal>)
    requires vs != [] && LiteralsLexed(c, vs)
    ensures AllLexed(c, PrintLiterals(vs))
    decreases |vs|
  {
    LiteralIsLexed(c, vs[0]);
    if |vs| > 1 {
      LiteralsAreLexed(c, vs[1..]);
      Joined(c, [PrintLiteral(vs[0]), Comma], PrintLiterals(vs[1..]));
    }
  }

  lemma OpLexed(c: Chars, op: Op)
    requires Sane(c) && op != In
    ensures AllLexed(c, [PrintOp(op)])
  {
    WordLexed(c, "contains");
    WordLexed(c, "startswith");
    WordLexed(c, "endswith");
  }

  lemma FieldLexed(env: Env, c: Chars, f: FieldPath)
    requires FieldNames(c, env) && FieldPrints(env, f)
    ensures AllLexed(c, [Ident(PathText(f))])
  {
  }

  lemma InLexed(env: Env, c: Chars, m: Comparison)
    requires Sane(c) && FieldNames(c, env) && ComparisonPrints(env, m) && m.op == In && LiteralsLexed(c, m.values)
    ensures AllLexed(c, PrintComparison(m))
  {
    FieldLexed(env, c, m.field);
    WordLexed(c, "in");
    LiteralsAreLexed(c, m.values);
    var head := [Ident(PathText(m.field)), Ident("in"), LParen];
    assert AllLexed(c, head) by {
      Joined(c, [Ident(PathText(m.field))], [Ident("in")]);
      Joined(c, [Ident(PathText(m.field))] + [Ident("in")], [LParen]);
      assert [Ident(PathText(m.field))] + [Ident("in")] + [LParen] == head;
    }
    Joined(c, head, PrintLiterals(m.values));
    Joined(c, head + PrintLiterals(m.values), [RParen]);
  }

  lemma TestLexed(env: Env, c: Chars, m: Comparison)
    requires Sane(c) && FieldNames(c, env) && ComparisonPrints(env, m) && m.op != In && LiteralLexed(c, m.value)
    ensures AllLexed(c, PrintComparison(m))
  {
    FieldLexed(env, c, m.field);
    OpLexed(c, m.op);
    LiteralIsLexed(c, m.value);
    Joined(c, [Ident(PathText(m.field))], [PrintOp(m.op)]);
    Joined(c, [Ident(PathText(m.field))] + [PrintOp(m.op)], [PrintLiteral(m.value)]);
    assert PrintComparison(m) == [Ident(PathText(m.field))] + [PrintOp(m.op)] + [PrintLiteral(m.value)];
  }

  lemma Chained(c: Chars, a: seq<Token>, w: string, b: seq<Token>)
    requires Sane(c) && w != "" && (forall i :: 0 <= i < |w| ==> IsAsciiLetter(w[i]))
    requires AllLexed(c, a) && AllLexed(c, b)
    ensures AllLexed(c, a + ([Ident(w)] + b)) && AllLexed(c, [LParen] + (a + ([Ident(w)] + b)) + [RParen])
  {
    WordLexed(c, w);
    Joined(c, [Ident(w)], b);
    Joined(c, a, [Ident(w)] + b);
    Joined(c, [LParen], a + ([Ident(w)] + b));
    Joined(c, [LParen] + (a + ([Ident(w)] + b)), [RParen]);
  }

  lemma {:induction false} UnaryLexed(env: Env, c: Chars, x: Expr)
    requires Sane(c) && FieldNames(c, env) && Prints(env, x) && ExprLexed(c, x)
    ensures AllLexed(c, PrintUnary(x))
    decreases x, 0
  {
    match x
    case Compare(m) => if m.op == In { InLexed(env, c, m); } else { TestLexed(env, c, m); }
    case Not(i) =>
      UnaryLexed(env, c, i);
      WordLexed(c, "not");
      Joined(c, [Ident("not")], PrintUnary(i));
    case And(l, r) =>
      AndLexed(env, c, l);
      UnaryLexed(env, c, r);
      Chained(c, PrintAnd(l), "and", PrintUnary(r));
    case Or(l, r) =>
      OrLexed(env, c, l);
      AndLexed(env, c, r);
      Chained(c, PrintOr(l), "or", PrintAnd(r));
  }

  lemma {:induction false} AndLexed(env: Env, c: Chars, x: Expr)
    requires Sane(c) && FieldNames(c, env) && Prints(env, x) && ExprLexed(c, x)
    ensures AllLexed(c, PrintAnd(x))
    decreases x, 1
  {
    if x.And? {
      AndLexed(env, c, x.left);
      UnaryLexed(env, c, x.right);
      Chained(c, PrintAnd(x.left), "and", PrintUnary(x.right));
    } else {
      UnaryLexed(env, c, x);
    }
  }

  lemma {:induction false} OrLexed(env: Env, c: Chars, x: Expr)
    requires Sane(c) && FieldNames(c, env) && Prints(env, x) && ExprLexed(c, x)
    ensures AllLexed(c, PrintOr(x))
    decreases x, 2
  {
    if x.Or? {
      OrLexed(env, c, x.left);
      AndLexed(env, c, x.right);
      Chained(c, PrintOr(x.left), "or", PrintAnd(x.right));
    } else {
      AndLexed(env, c, x);
    }
  }

  lemma WhereLexed(env: Env, c: Chars, x: Option<Expr>)
    requires Sane(c) && FieldNames(c, env) && FilterPrints(env, x) && FilterLexed(c, x)
    ensures AllLexed(c, PrintWhere(x))
  {
    if x.Some? {
      OrLexed(env, c, x.value);
      WordLexed(c, "where");
      Joined(c, [Ident("where")], PrintOr(x.value));
    }
  }

  lemma ClassIsLexed(c: Chars, k: ClassRef)
    requires Sane(c) && ClassLexed(c, k)
    ensures AllLexed(c, [PrintClass(k)])
  {
    WordLexed(c, "any");
  }

  lemma LimitLexed(c: Chars, n: int)
    requires Sane(c) && n >= 0
    ensures AllLexed(c, [Ident("limit"), Number(FormatInt(n))])
  {
    WordLexed(c, "limit");
    assert NumberText(c, FormatNat(n));
    Joined(c, [Ident("limit")], [Number(FormatInt(n))]);
    assert [Ident("limit")] + [Number(FormatInt(n))] == [Ident("limit"), Number(FormatInt(n))];
  }

  lemma PipeIsLexed(env: Env, c: Chars, p: Pipe)
    requires Sane(c) && FieldNames(c, env) && PipePrints(env, p) && PipeLexed(c, p)
    ensures AllLexed(c, PrintPipe(p))
  {
    match p
    case Where(x) => WhereLexed(env, c, Some(x));
    case Limit(n) => LimitLexed(c, n);
  }

  lemma {:induction false} PipesAreLexed(env: Env, c: Chars, ps: seq<Pipe>)
    requires Sane(c) && FieldNames(c, env) && (forall i :: 0 <= i < |ps| ==> PipePrints(env, ps[i])) &&
             PipesLexed(c, ps)
    ensures AllLexed(c, PrintPipes(ps))
    decreases |ps|
  {
    if ps != [] {
      PipeIsLexed(env, c, ps[0]);
      PipesAreLexed(env, c, ps[1..]);
      Joined(c, PrintPipe(ps[0]), PrintPipes(ps[1..]));
      Joined(c, [Bar], PrintPipe(ps[0]) + PrintPipes(ps[1..]));
    }
  }

  lemma StageIsLexed(env: Env, c: Chars, s: Stage)
    requires Sane(c) && FieldNames(c, env) && StagePrints(env, s) && StageLexed(c, s)
    ensures AllLexed(c, PrintStage(s))
  {
    ClassIsLexed(c, s.class_);
    WhereLexed(env, c, s.filter);
    Joined(c, [PrintClass(s.class_)], PrintWhere(s.filter));
  }

  lemma {:induction false} StagesAreLexed(env: Env, c: Chars, ss: seq<Stage>)
    requires Sane(c) && FieldNames(c, env) && ss != []
    requires (forall i :: 0 <= i < |ss| ==> StagePrints(env, ss[i])) && StagesLexed(c, ss)
    ensures AllLexed(c, PrintStages(ss))
    decreases |ss|
  {
    StageIsLexed(env, c, ss[0]);
    if |ss| > 1 {
      StagesAreLexed(env, c, ss[1..]);
      Joined(c, PrintStage(ss[0]), [Semicolon]);
      Joined(c, PrintStage(ss[0]) + [Semicolon], PrintStages(ss[1..]));
    }
  }

  // ----- whole queries -----

  /** The tokens of a query, without the end marker. */
  function QueryTokens(q: Query, t: Token): (ts: seq<Token>)
    requires q.Sequence? ==> q.stages != []
  {
    match q
    case Simple(k, x, ps) => [PrintClass(k)] + (PrintWhere(x) + PrintPipes(ps))
    case Sequence(f, d, ss) => [Ident("sequence")] + (PrintBy(f) + (PrintWithin(d, t) + ([Colon] + PrintStages(ss))))
  }

  lemma PrintQueryEnds(q: Query, t: Token)
    requires q.Sequence? ==> q.stages != []
    ensures PrintQuery(q, t) == QueryTokens(q, t) + [EOF]
  {
    match q
    case Simple(k, x, ps) =>
      Assoc([PrintClass(k)], PrintWhere(x) + PrintPipes(ps), [EOF]);
      Assoc(PrintWhere(x), PrintPipes(ps), [EOF]);
    case Sequence(f, d, ss) =>
      var body := [Colon] + PrintStages(ss);
      Assoc([Colon], PrintStages(ss), [EOF]);
      Assoc(PrintWithin(d, t), body, [EOF]);
      Assoc(PrintBy(f), PrintWithin(d, t) + body, [EOF]);
      Assoc([Ident("sequence")], PrintBy(f) + (PrintWithin(d, t) + body), [EOF]);
  }

  lemma SimpleLexed(env: Env, c: Chars, q: Query, t: Token)
    requires Sane(c) && FieldNames(c, env) && QueryPrints(env, q, t) && QueryLexed(c, q) && q.Simple?
    ensures AllLexed(c, QueryTokens(q, t))
  {
    ClassIsLexed(c, q.class_);
    WhereLexed(env, c, q.filter);
    PipesAreLexed(env, c, q.pipes);
    Joined(c, PrintWhere(q.filter), PrintPipes(q.pipes));
    Joined(c, [PrintClass(q.class_)], PrintWhere(q.filter) + PrintPipes(q.pipes));
  }

  lemma ByLexed(env: Env, c: Chars, f: FieldPath)
    requires Sane(c) && FieldNames(c, env) && (f != NoField ==> FieldPrints(env, f))
    ensures AllLexed(c, PrintBy(f))
  {
    if f != NoField {
      WordLexed(c, "by");
      FieldLexed(env, c, f);
      Joined(c, [Ident("by")], [Ident(PathText(f))]);
      assert PrintBy(f) == [Ident("by")] + [Ident(PathText(f))];
    }
  }

  lemma WithinLexed(env: Env, c: Chars, d: int, t: Token)
    requires Sane(c) && DurationPrints(env, d, t) && (t == EOF || Lexed(c, t))
    ensures AllLexed(c, PrintWithin(d, t))
  {
    if d != 0 {
      WordLexed(c, "within");
      Joined(c, [Ident("within")], [t]);
      assert PrintWithin(d, t) == [Ident("within")] + [t];
    }
  }

  lemma SequenceLexed(env: Env, c: Chars, q: Query, t: Token)
    requires Sane(c) && FieldNames(c, env) && QueryPrints(env, q, t) && QueryLexed(c, q) && q.Sequence?
    requires t == EOF || Lexed(c, t)
    ensures AllLexed(c, QueryTokens(q, t))
  {
    var body := [Colon] + PrintStages(q.stages);
    StagesAreLexed(env, c, q.stages);
    WithinLexed(env, c, q.within, t);
    ByLexed(env, c, q.groupField);
    WordLexed(c, "sequence");
    Joined(c, [Colon], PrintStages(q.stages));
    Joined(c, PrintWithin(q.within, t), body);
    Joined(c, PrintBy(q.groupField), PrintWithin(q.within, t) + body);
    Joined(c, [Ident("sequence")], PrintBy(q.groupField) + (PrintWithin(q.within, t) + body));
  }

  lemma AcceptedTokens(env: Env, c: Chars, src: string) returns (ts: seq<Token>)
    requires Sane(c) && CompileText(env, c, src).Ok?
    ensures LexAll(c, [], src) == Ok(ts) && Fine(c, ts) && ParseTokens(env, ts) == CompileText(env, c, src)
  {
    ts := LexAll(c, [], src).value;
    LexedEndsInEof(c, [], src);
    forall i | 0 <= i < |ts| ensures ts[i] == EOF || Lexed(c, ts[i]) {
      if i < |ts| - 1 { assert ts[i] == ts[..|ts| - 1][i]; }
    }
  }

  lemma InFine(c: Chars, ts: seq<Token>, t: Token)
    requires Fine(c, ts) && t in ts
    ensures t == EOF || Lexed(c, t)
  {
  }

  /** Whatever text a query was compiled from, its own text compiles to it again. */
  lemma CompiledReadsBack(env: Env, c: Chars, src: string) returns (t: Token)
    requires Sane(c) && FieldTable(env) && FieldNames(c, env) && CompileText(env, c, src).Ok?
    ensures
      var q := CompileText(env, c, src).value;
      (q.Sequence? ==> q.stages != []) && CompileText(env, c, WriteAll(QueryTokens(q, t))) == Ok(q)
  {
    var ts := AcceptedTokens(env, c, src);
    var q := CompileText(env, c, src).value;
    t := AcceptedQueriesReadBack(env, ts);
    QueryKeeps(env, c, ts);
    if t != EOF { InFine(c, ts, t); }
    if q.Simple? { SimpleLexed(env, c, q, t); } else { SequenceLexed(env, c, q, t); }
    TextReadsBack(env, c, q, t);
  }

  lemma TextReadsBack(env: Env, c: Chars, q: Query, t: Token)
    requires Sane(c) && (q.Sequence? ==> q.stages != []) && AllLexed(c, QueryTokens(q, t))
    requires ParseTokens(env, PrintQuery(q, t)) == Ok(q)
    ensures CompileText(env, c, WriteAll(QueryTokens(q, t))) == Ok(q)
  {
    PrintQueryEnds(q, t);
    TokensReadBack(c, [], QueryTokens(q, t));
    assert [] + QueryTokens(q, t) == QueryTokens(q, t);
  }

  // ----- what promotion asks of a compiled query -----

  /** strconv.ParseFloat reads no number token as negative. */
  ghost predicate Unsigned(lib: Lib, c: Chars) {
    forall x :: NumberText(c, x) && lib.parseFloat(x).Some? ==> lib.parseFloat(x).value >= 0.0
  }

  ghost predicate AllWellFormed(x: Expr) {
    match x
    case And(l, r) => AllWellFormed(l) && AllWellFormed(r)
    case Or(l, r) => AllWellFormed(l) && AllWellFormed(r)
    case Not(i) => AllWellFormed(i)
    case Compare(m) => WellFormedComparison(m)
  }

  lemma {:induction false} ExprWellFormed(env: Env, c: Chars, x: Expr)
    requires Unsigned(env.lib, c) && FieldTable(env) && Prints(env, x) && ExprLexed(c, x)
    ensures AllWellFormed(x)
  {
    match x
    case And(l, r) =>
      ExprWellFormed(env, c, l);
      ExprWellFormed(env, c, r);
    case Or(l, r) =>
      ExprWellFormed(env, c, l);
      ExprWellFormed(env, c, r);
    case Not(i) => ExprWellFormed(env, c, i);
    case Compare(m) =>
      forall i | 0 <= i < |m.values| ensures WellFormed(m.values[i]) {
        assert LiteralLexed(c, m.values[i]) && LiteralPrints(env, m.values[i]);
      }
  }

  /** Every filter of a compiled simple query consists of well-formed comparisons. */
  lemma CompiledIsWellFormed(env: Env, c: Chars, src: string)
    requires Sane(c) && Unsigned(env.lib, c) && FieldTable(env) && CompileText(env, c, src).Ok?
    requires CompileText(env, c, src).value.Simple?
    ensures
      var fs := Filters(CompileText(env, c, src).value);
      forall i :: 0 <= i < |fs| ==> AllWellFormed(fs[i])
  {
    var ts := AcceptedTokens(env, c, src);
    var q := CompileText(env, c, src).value;
    var t := AcceptedQueriesReadBack(env, ts);
    QueryKeeps(env, c, ts);
    if q.filter.Some? { ExprWellFormed(env, c, q.filter.value); }
    PipesWellFormed(env, c, q.pipes);
  }

  lemma {:induction false} PipesWellFormed(env: Env, c: Chars, ps: seq<Pipe>)
    requires Unsigned(env.lib, c) && FieldTable(env)
    requires (forall i :: 0 <= i < |ps| ==> PipePrints(env, ps[i])) && PipesLexed(c, ps)
    ensures forall i :: 0 <= i < |PipeFilters(ps)| ==> AllWellFormed(PipeFilters(ps)[i])
    decreases |ps|
  {
    if ps != [] {
      if ps[0].Where? { ExprWellFormed(env, c, ps[0].filter); }
      PipesWellFormed(env, c, ps[1..]);
    }
  }
}
