/** ARQL as text: tokens written out and lexed back, and the whole way from the text of a
    query to the query and back. */
module ArqlText {
  import opened Text
  import opened Model
  import opened Stdlib
  import opened Arql
  import opened ArqlParser
  import opened ArqlPrinter
  import opened ArqlLexer

  // ----- writing tokens -----

  function OpText(op: Op): (s: string) {
    match op
    case Eq => "=="
    case Ne => "!="
    case Ge => ">="
    case Le => "<="
    case Like => "=~"
    case Gt => ">"
    case Lt => "<"
    case _ => ""
  }

  function EscapeChar(ch: char): (s: string) {
    if ch == '\\' || ch == '"' then ['\\', ch] else [ch]
  }

  function Escape(x: string): (s: string) {
    if x == "" then "" else EscapeChar(x[0]) + Escape(x[1..])
  }

  function Write(t: Token): (s: string) {
    match t
    case EOF => ""
    case Ident(x) => x
    case Quoted(x) => "\"" + (Escape(x) + "\"")
    case Number(x) => x
    case Duration(x) => x
    case Symbol(op) => OpText(op)
    case Bar => "|"
    case LParen => "("
    case RParen => ")"
    case Comma => ","
    case Colon => ":"
    case Semicolon => ";"
  }

  /** Tokens separated by spaces. */
  function WriteAll(ts: seq<Token>): (s: string) {
    if ts == [] then "" else Write(ts[0]) + (" " + WriteAll(ts[1..]))
  }

  // ----- the tokens the lexer makes -----

  ghost predicate All(keep: char -> bool, s: string) {
    forall i :: 0 <= i < |s| ==> keep(s[i])
  }

  ghost predicate NumberText(c: Chars, x: string) {
    x != "" && c.isDigit(x[0]) && All(NumberPart(c), x)
  }

  ghost predicate DurationText(c: Chars, x: string) {
    var k := Span(NumberPart(c), x);
    x != "" && c.isDigit(x[0]) && k < |x| && All(UnitPart(), x[k..])
  }

  ghost predicate IdentText(c: Chars, x: string) {
    x != "" && IdentStart(c)(x[0]) && All(IdentPart(c), x)
  }

  ghost predicate Lexed(c: Chars, t: Token) {
    match t
    case EOF => false
    case Ident(x) => IdentText(c, x)
    case Number(x) => NumberText(c, x)
    case Duration(x) => DurationText(c, x)
    case Symbol(op) => IsSymbol(op)
    case _ => true
  }

  ghost predicate AllLexed(c: Chars, ts: seq<Token>) {
    forall i :: 0 <= i < |ts| ==> Lexed(c, ts[i])
  }

  // ----- lexing what was written -----

  lemma SpanStops(keep: char -> bool, x: string, rest: string)
    requires All(keep, x) && (rest != "" ==> !keep(rest[0]))
    ensures Span(keep, x + rest) == |x|
  {
    SpanIs(keep, x + rest, |x|);
  }

  lemma CharReadsBack(read: string, ch: char, more: string)
    requires more != ""
    ensures StringOf('"', read, EscapeChar(ch) + more) == StringOf('"', read + [ch], more)
  {
    var s := EscapeChar(ch) + more;
    if ch == '\\' || ch == '"' {
      assert s[0] == '\\' && s[1] == ch && s[2..] == more;
    } else {
      assert s[0] == ch && s[1..] == more;
    }
  }

  lemma {:induction false} StringReadsBack(read: string, x: string, rest: string)
    ensures StringOf('"', read, Escape(x) + ("\"" + rest)) == Found(Quoted(read + x), rest)
    decreases |x|
  {
    var end := "\"" + rest;
    if x == "" {
      assert Escape(x) + end == end && end[1..] == rest && read + x == read;
    } else {
      StringReadsBack(read + [x[0]], x[1..], rest);
      CharReadsBack(read, x[0], Escape(x[1..]) + end);
      Assoc(EscapeChar(x[0]), Escape(x[1..]), end);
      MoveHead(read, x);
    }
  }

  lemma QuotedReadsBack(c: Chars, x: string, rest: string)
    requires Sane(c)
    ensures LexemeOf(c, Write(Quoted(x)) + rest) == Found(Quoted(x), rest)
  {
    var s := Write(Quoted(x)) + rest;
    assert s[0] == '"' && s[0] in PUNCTUATION;
    assert s[1..] == Escape(x) + ("\"" + rest) by { QuotedTail(x, rest); }
    assert LexemeOf(c, s) == StringOf('"', "", s[1..]);
    StringReadsBack("", x, rest);
    assert "" + x == x;
  }

  lemma QuotedTail(x: string, rest: string)
    ensures (Write(Quoted(x)) + rest)[1..] == Escape(x) + ("\"" + rest)
  {
  }

  lemma IdentReadsBack(c: Chars, x: string, rest: string)
    requires Sane(c) && IdentText(c, x)
    ensures LexemeOf(c, x + (" " + rest)) == Found(Ident(x), " " + rest)
  {
    var s := x + (" " + rest);
    assert s[0] == x[0] && (" " + rest)[0] == ' ';
    NotPunctuation(c, x[0]);
    SpanStops(IdentPart(c), x, " " + rest);
    assert s[..|x|] == x && s[|x|..] == " " + rest;
  }

  lemma NotPunctuation(c: Chars, ch: char)
    requires Sane(c) && IdentStart(c)(ch)
    ensures !c.isSpace(ch) && !c.isDigit(ch) && ch != '"' && ch != '\''
  {
    if ch == '_' { assert ch in PUNCTUATION; }
    assert '"' in PUNCTUATION && '\'' in PUNCTUATION;
  }

  lemma DigitFirst(c: Chars, s: string)
    requires Sane(c) && s != "" && c.isDigit(s[0])
    ensures LexemeOf(c, s) == NumberOf(c, s)
  {
    assert '"' in PUNCTUATION && '\'' in PUNCTUATION;
  }

  lemma NumberReadsBack(c: Chars, x: string, rest: string)
    requires Sane(c) && NumberText(c, x)
    ensures LexemeOf(c, x + (" " + rest)) == Found(Number(x), " " + rest)
  {
    var s := x + (" " + rest);
    assert s[0] == x[0] && (" " + rest)[0] == ' ';
    DigitFirst(c, s);
    SpanStops(NumberPart(c), x, " " + rest);
    assert s[..|x|] == x && s[|x|..] == " " + rest && s[|x|] == ' ';
  }

  lemma DurationReadsBack(c: Chars, x: string, rest: string)
    requires Sane(c) && DurationText(c, x)
    ensures LexemeOf(c, x + (" " + rest)) == Found(Duration(x), " " + rest)
  {
    var s, k := x + (" " + rest), Span(NumberPart(c), x);
    assert s[0] == x[0];
    DigitFirst(c, s);
    SpanIs(NumberPart(c), s, k);
    assert x[k] == x[k..][0] && s[k] == x[k];
    assert s[k..] == x[k..] + (" " + rest);
    SpanStops(UnitPart(), x[k..], " " + rest);
    assert s[..|x|] == x && s[|x|..] == " " + rest;
  }

  lemma SymbolReadsBack(c: Chars, t: Token, rest: string)
    requires Sane(c) && Lexed(c, t) && !t.Ident? && !t.Quoted? && !t.Number? && !t.Duration?
    ensures LexemeOf(c, Write(t) + (" " + rest)) == Found(t, " " + rest)
  {
    var w := Write(t);
    var s := w + (" " + rest);
    SymbolFirst(c, t);
    assert s[0] == w[0];
    if |w| == 2 {
      assert s[..2] == w && s[2..] == " " + rest;
    } else {
      assert s[1] == ' ' && s[1..] == " " + rest;
      assert |s| >= 2 && s[..2][1] == ' ';
      NoTwoSymbol(s);
    }
  }

  lemma NoTwoSymbol(s: string)
    requires |s| >= 2 && s[1] == ' '
    ensures TwoSymbol(s) == None
  {
    assert s[..2][1] == ' ';
  }

  lemma SymbolFirst(c: Chars, t: Token)
    requires Sane(c) && Lexed(c, t) && !t.Ident? && !t.Quoted? && !t.Number? && !t.Duration?
    ensures
      var w := Write(t);
      && 1 <= |w| <= 2 && !c.isSpace(w[0]) && !c.isDigit(w[0]) && !IdentStart(c)(w[0]) && w[0] != '"' && w[0] != '\''
      && (|w| == 2 ==> TwoSymbol(w).Some? && t == Symbol(TwoSymbol(w).value))
      && (|w| == 1 ==> OneSymbol(w[0]) == Some(t))
  {
    WriteStarts(t);
    SymbolChar(c, Write(t)[0]);
    OneSymbolText(t);
    if t.Symbol? { TwoSymbolText(t.op); }
  }

  predicate IsSymbolChar(ch: char) {
    ch == '=' || ch == '!' || ch == '<' || ch == '>' || ch == '|' || ch == '(' || ch == ')' || ch == ',' ||
      ch == ':' || ch == ';'
  }

  lemma SymbolChar(c: Chars, ch: char)
    requires Sane(c) && IsSymbolChar(ch)
    ensures !c.isSpace(ch) && !c.isDigit(ch) && !IdentStart(c)(ch) && ch != '"' && ch != '\''
  {
    assert ch in PUNCTUATION;
  }

  lemma OneSymbolText(t: Token)
    requires !t.EOF? && !t.Ident? && !t.Quoted? && !t.Number? && !t.Duration?
    ensures |Write(t)| == 1 ==> OneSymbol(Write(t)[0]) == Some(t)
  {
  }

  lemma WriteStarts(t: Token)
    requires !t.EOF? && !t.Ident? && !t.Quoted? && !t.Number? && !t.Duration? && (t.Symbol? ==> IsSymbol(t.op))
    ensures 1 <= |Write(t)| <= 2 && IsSymbolChar(Write(t)[0])
  {
  }

  lemma TwoSymbolText(op: Op)
    ensures |OpText(op)| == 2 ==> TwoSymbol(OpText(op)) == Some(op)
  {
    var w := OpText(op);
    assert |w| == 2 ==> w[..2] == w;
    assert "=="[0] == '=' && "=="[1] == '=' && "!="[0] == '!' && ">="[0] == '>' && "<="[0] == '<' && "=~"[1] == '~';
  }

  lemma TokenReadsBack(c: Chars, t: Token, rest: string)
    requires Sane(c) && Lexed(c, t)
    ensures LexemeOf(c, Write(t) + (" " + rest)) == Found(t, " " + rest)
  {
    match t
    case Ident(x) => IdentReadsBack(c, x, rest);
    case Quoted(x) => QuotedReadsBack(c, x, " " + rest);
    case Number(x) => NumberReadsBack(c, x, rest);
    case Duration(x) => DurationReadsBack(c, x, rest);
    case _ => SymbolReadsBack(c, t, rest);
  }

  lemma SpaceSkipped(c: Chars, read: seq<Token>, rest: string)
    requires Sane(c)
    ensures LexAll(c, read, " " + rest) == LexAll(c, read, rest)
  {
    assert (" " + rest)[0] == ' ' && (" " + rest)[1..] == rest;
  }

  lemma WriteNonEmpty(c: Chars, t: Token)
    requires Lexed(c, t)
    ensures Write(t) != ""
  {
  }

  /** Every token list the lexer can make is lexed from its text. */
  lemma {:induction false} TokensReadBack(c: Chars, read: seq<Token>, ts: seq<Token>)
    requires Sane(c) && AllLexed(c, ts)
    ensures LexAll(c, read, WriteAll(ts)) == Ok(read + ts + [EOF])
    decreases |ts|
  {
    if ts == [] {
      assert read + ts == read;
    } else {
      var rest := WriteAll(ts[1..]);
      TokenReadsBack(c, ts[0], rest);
      WriteNonEmpty(c, ts[0]);
      SpaceSkipped(c, read + [ts[0]], rest);
      TokensReadBack(c, read + [ts[0]], ts[1..]);
      MoveHead(read, ts);
    }
  }

  // ----- everything lexed is of that kind -----

  lemma SpanKept(keep: char -> bool, s: string)
    ensures All(keep, s[..Span(keep, s)])
  {
  }

  lemma NumberIsLexed(c: Chars, s: string)
    requires s != "" && c.isDigit(s[0]) && Sane(c)
    ensures Lexed(c, NumberOf(c, s).t)
  {
    var k := Span(NumberPart(c), s);
    if k < |s| && UnitPart()(s[k]) {
      var m := Span(UnitPart(), s[k..]);
      var x := s[..k + m];
      assert s[k..][0] == s[k] && m > 0;
      assert x[k..] == s[k..][..m];
      assert c.isLetter(x[k]) by { assert IsAsciiLetter(x[k]); }
      SpanIs(NumberPart(c), x, k);
      SpanKept(UnitPart(), s[k..]);
    }
  }

  lemma LexemeIsLexed(c: Chars, s: string)
    requires s != "" && LexemeOf(c, s).Found? && Sane(c)
    ensures Lexed(c, LexemeOf(c, s).t)
  {
    if c.isSpace(s[0]) || s[0] == '"' || s[0] == '\'' {
    } else if c.isDigit(s[0]) {
      NumberIsLexed(c, s);
    }
  }

  /** Such tokens, closed by the one end marker. */
  ghost predicate EndsInEof(c: Chars, ts: seq<Token>) {
    ts != [] && ts[|ts| - 1] == EOF && AllLexed(c, ts[..|ts| - 1])
  }

  lemma EofEnds(c: Chars, read: seq<Token>)
    requires AllLexed(c, read)
    ensures EndsInEof(c, read + [EOF])
  {
    assert (read + [EOF])[..|read|] == read;
  }

  lemma LexedSnoc(c: Chars, read: seq<Token>, t: Token)
    requires AllLexed(c, read) && Lexed(c, t)
    ensures AllLexed(c, read + [t])
  {
  }

  lemma {:induction false} LexedEndsInEof(c: Chars, read: seq<Token>, s: string)
    requires Sane(c) && AllLexed(c, read) && LexAll(c, read, s).Ok?
    ensures EndsInEof(c, LexAll(c, read, s).value)
    decreases |s|
  {
    if s == "" {
      EofEnds(c, read);
    } else {
      match LexemeOf(c, s)
      case Space(rest) => LexedEndsInEof(c, read, rest);
      case Found(t, rest) =>
        LexemeIsLexed(c, s);
        LexedSnoc(c, read, t);
        LexedEndsInEof(c, read + [t], rest);
    }
  }

  /** Lexing is a projection: writing out what was lexed and lexing again changes nothing. */
  lemma LexingIsStable(c: Chars, s: string)
    requires Sane(c) && LexAll(c, [], s).Ok?
    ensures
      var ts := LexAll(c, [], s).value;
      ts != [] && LexAll(c, [], WriteAll(ts[..|ts| - 1])) == Ok(ts)
  {
    var ts := LexAll(c, [], s).value;
    LexedEndsInEof(c, [], s);
    TokensReadBack(c, [], ts[..|ts| - 1]);
    Closed(ts);
  }

  lemma Closed(ts: seq<Token>)
    requires ts != [] && ts[|ts| - 1] == EOF
    ensures [] + ts[..|ts| - 1] + [EOF] == ts
  {
  }

  // ----- from text to query -----

  function CompileText(env: Env, c: Chars, src: string): (r: Result<Query>) {
    match LexAll(c, [], src)
    case Err => Err
    case Ok(ts) => ParseTokens(env, ts)
  }

  /** hunt.Compile: the parser is only ever given a list that ends in EOF. */
  method Compile(env: Env, c: Chars, src: string) returns (r: Result<Query>)
    requires Sane(c)
    ensures r == CompileText(env, c, src)
  {
    var tokens := Lex(c, src);
    if tokens.Err? { return Err; }
    LexedEndsInEof(c, [], src);
    r := Parse(env, tokens.value);
  }

  // ----- the parts of a query that came from lexed tokens -----

  ghost predicate Fine(c: Chars, ts: seq<Token>) {
    forall i :: 0 <= i < |ts| ==> ts[i] == EOF || Lexed(c, ts[i])
  }

  ghost predicate LiteralLexed(c: Chars, v: Literal) {
    v.isNum ==> NumberText(c, v.text)
  }

  ghost predicate LiteralsLexed(c: Chars, vs: seq<Literal>) {
    forall i :: 0 <= i < |vs| ==> LiteralLexed(c, vs[i])
  }

  ghost predicate ExprLexed(c: Chars, x: Expr) {
    match x
    case And(l, r) => ExprLexed(c, l) && ExprLexed(c, r)
    case Or(l, r) => ExprLexed(c, l) && ExprLexed(c, r)
    case Not(i) => ExprLexed(c, i)
    case Compare(m) => LiteralLexed(c, m.value) && LiteralsLexed(c, m.values)
  }

  ghost predicate FilterLexed(c: Chars, x: Option<Expr>) {
    x.Some? ==> ExprLexed(c, x.value)
  }

  ghost predicate ClassLexed(c: Chars, k: ClassRef) {
    k.Class? ==> IdentText(c, k.action)
  }

  ghost predicate PipeLexed(c: Chars, p: Pipe) {
    match p
    case Where(x) => ExprLexed(c, x)
    case Limit(n) => n >= 0
  }

  ghost predicate PipesLexed(c: Chars, ps: seq<Pipe>) {
    forall i :: 0 <= i < |ps| ==> PipeLexed(c, ps[i])
  }

  ghost predicate StageLexed(c: Chars, s: Stage) {
    ClassLexed(c, s.class_) && FilterLexed(c, s.filter)
  }

  ghost predicate StagesLexed(c: Chars, ss: seq<Stage>) {
    forall i :: 0 <= i < |ss| ==> StageLexed(c, ss[i])
  }

  ghost predicate QueryLexed(c: Chars, q: Query) {
    match q
    case Simple(k, x, ps) => ClassLexed(c, k) && FilterLexed(c, x) && PipesLexed(c, ps)
    case Sequence(_, _, ss) => StagesLexed(c, ss)
  }

  lemma FineTail(c: Chars, ts: seq<Token>)
    requires Fine(c, ts) && ts != []
    ensures Fine(c, ts[1..]) && (ts[0] == EOF || Lexed(c, ts[0]))
  {
  }

  lemma ValueKeeps(env: Env, c: Chars, ts: seq<Token>)
    requires Fine(c, ts) && ValueOf(env, ts).Yes?
    ensures LiteralLexed(c, ValueOf(env, ts).value) && Fine(c, ValueOf(env, ts).rest)
  {
    FineTail(c, ts);
  }

  lemma {:induction false} ValuesKeep(env: Env, c: Chars, read: seq<Literal>, ts: seq<Token>)
    requires Fine(c, ts) && LiteralsLexed(c, read) && ValuesOf(env, read, ts).Yes?
    ensures LiteralsLexed(c, ValuesOf(env, read, ts).value) && Fine(c, ValuesOf(env, read, ts).rest)
    decreases |ts|
  {
    ValueKeeps(env, c, ts);
    var v := ValueOf(env, ts);
    if Next(v.rest, Comma) {
      FineTail(c, v.rest);
      ValuesKeep(env, c, read + [v.value], v.rest[1..]);
    }
  }

  lemma OperatorKeeps(c: Chars, ts: seq<Token>)
    requires Fine(c, ts) && OperatorOf(ts).Yes?
    ensures Fine(c, OperatorOf(ts).rest)
  {
    FineTail(c, ts);
  }

  lemma TestKeeps(env: Env, c: Chars, field: FieldPath, ts: seq<Token>)
    requires Fine(c, ts) && TestOf(env, field, ts).Yes?
    ensures ExprLexed(c, TestOf(env, field, ts).value) && Fine(c, TestOf(env, field, ts).rest)
  {
    OperatorKeeps(c, ts);
    ValueKeeps(env, c, OperatorOf(ts).rest);
  }

  lemma InKeeps(env: Env, c: Chars, field: FieldPath, ts: seq<Token>)
    requires Fine(c, ts) && InOf(env, field, ts).Yes?
    ensures ExprLexed(c, InOf(env, field, ts).value) && Fine(c, InOf(env, field, ts).rest)
  {
    FineTail(c, ts);
    ValuesKeep(env, c, [], ts[1..]);
    FineTail(c, ValuesOf(env, [], ts[1..]).rest);
  }

  lemma ComparisonKeeps(env: Env, c: Chars, ts: seq<Token>)
    requires Fine(c, ts) && ComparisonOf(env, ts).Yes?
    ensures ExprLexed(c, ComparisonOf(env, ts).value) && Fine(c, ComparisonOf(env, ts).rest)
  {
    var f := FieldOf(env, ts);
    FineTail(c, ts);
    if Kw(f.rest, "in") {
      FineTail(c, f.rest);
      InKeeps(env, c, f.value, f.rest[1..]);
    } else {
      TestKeeps(env, c, f.value, f.rest);
    }
  }

  lemma {:induction false} UnaryKeeps(env: Env, c: Chars, ts: seq<Token>)
    requires Fine(c, ts) && UnaryOf(env, ts).Yes?
    ensures ExprLexed(c, UnaryOf(env, ts).value) && Fine(c, UnaryOf(env, ts).rest)
    decreases |ts|, 0
  {
    if Kw(ts, "not") {
      FineTail(c, ts);
      UnaryKeeps(env, c, ts[1..]);
    } else if Next(ts, LParen) {
      FineTail(c, ts);
      OrKeeps(env, c, ts[1..]);
      FineTail(c, OrOf(env, ts[1..]).rest);
    } else {
      ComparisonKeeps(env, c, ts);
    }
  }

  lemma {:induction false} AndKeeps(env: Env, c: Chars, ts: seq<Token>)
    requires Fine(c, ts) && AndOf(env, ts).Yes?
    ensures ExprLexed(c, AndOf(env, ts).value) && Fine(c, AndOf(env, ts).rest)
    decreases |ts|, 1
  {
    UnaryKeeps(env, c, ts);
    AndMoreKeeps(env, c, UnaryOf(env, ts).value, UnaryOf(env, ts).rest);
  }

  lemma {:induction false} AndMoreKeeps(env: Env, c: Chars, left: Expr, ts: seq<Token>)
    requires Fine(c, ts) && ExprLexed(c, left) && AndMore(env, left, ts).Yes?
    ensures ExprLexed(c, AndMore(env, left, ts).value) && Fine(c, AndMore(env, left, ts).rest)
    decreases |ts|, 1
  {
    if Kw(ts, "and") {
      FineTail(c, ts);
      UnaryKeeps(env, c, ts[1..]);
      var x := UnaryOf(env, ts[1..]);
      AndMoreKeeps(env, c, And(left, x.value), x.rest);
    }
  }

  lemma {:induction false} OrKeeps(env: Env, c: Chars, ts: seq<Token>)
    requires Fine(c, ts) && OrOf(env, ts).Yes?
    ensures ExprLexed(c, OrOf(env, ts).value) && Fine(c, OrOf(env, ts).rest)
    decreases |ts|, 2
  {
    AndKeeps(env, c, ts);
    OrMoreKeeps(env, c, AndOf(env, ts).value, AndOf(env, ts).rest);
  }

  lemma {:induction false} OrMoreKeeps(env: Env, c: Chars, left: Expr, ts: seq<Token>)
    requires Fine(c, ts) && ExprLexed(c, left) && OrMore(env, left, ts).Yes?
    ensures ExprLexed(c, OrMore(env, left, ts).value) && Fine(c, OrMore(env, left, ts).rest)
    decreases |ts|, 2
  {
    if Kw(ts, "or") {
      FineTail(c, ts);
      AndKeeps(env, c, ts[1..]);
      var x := AndOf(env, ts[1..]);
      OrMoreKeeps(env, c, Or(left, x.value), x.rest);
    }
  }

  lemma WhereKeeps(env: Env, c: Chars, ts: seq<Token>)
    requires Fine(c, ts) && WhereOf(env, ts).Yes?
    ensures FilterLexed(c, WhereOf(env, ts).value) && Fine(c, WhereOf(env, ts).rest)
  {
    if Kw(ts, "where") {
      FineTail(c, ts);
      OrKeeps(env, c, ts[1..]);
    }
  }

  lemma ClassKeeps(c: Chars, ts: seq<Token>)
    requires Fine(c, ts) && ClassOf(ts).Yes?
    ensures ClassLexed(c, ClassOf(ts).value) && Fine(c, ClassOf(ts).rest)
  {
    FineTail(c, ts);
  }

  /** A number token has no sign. */
  lemma NumbersAreNatural(c: Chars, x: string)
    requires Sane(c) && NumberText(c, x) && ParseInt(x).Some?
    ensures ParseInt(x).value >= 0
  {
    assert '-' in PUNCTUATION && '+' in PUNCTUATION;
  }

  lemma PipeKeeps(env: Env, c: Chars, ts: seq<Token>)
    requires Sane(c) && Fine(c, ts) && PipeOf(env, ts).Yes?
    ensures PipeLexed(c, PipeOf(env, ts).value) && Fine(c, PipeOf(env, ts).rest)
  {
    FineTail(c, ts);
    if Kw(ts, "where") {
      OrKeeps(env, c, ts[1..]);
    } else {
      FineTail(c, ts[1..]);
      assert ts[1..][0] == ts[1] && ts[1..][1..] == ts[2..];
      NumbersAreNatural(c, ts[1].text);
    }
  }

  lemma {:induction false} PipesKeep(env: Env, c: Chars, read: seq<Pipe>, ts: seq<Token>)
    requires Sane(c) && Fine(c, ts) && PipesLexed(c, read) && PipesOf(env, read, ts).Yes?
    ensures PipesLexed(c, PipesOf(env, read, ts).value)
    decreases |ts|
  {
    if Next(ts, Bar) {
      FineTail(c, ts);
      PipeKeeps(env, c, ts[1..]);
      var p := PipeOf(env, ts[1..]);
      PipesKeep(env, c, read + [p.value], p.rest);
    }
  }

  lemma StageKeeps(env: Env, c: Chars, ts: seq<Token>)
    requires Fine(c, ts) && StageOf(env, ts).Yes?
    ensures StageLexed(c, StageOf(env, ts).value) && Fine(c, StageOf(env, ts).rest)
  {
    ClassKeeps(c, ts);
    WhereKeeps(env, c, ClassOf(ts).rest);
  }

  lemma {:induction false} StagesKeep(env: Env, c: Chars, read: seq<Stage>, ts: seq<Token>)
    requires Fine(c, ts) && StagesLexed(c, read) && StagesOf(env, read, ts).Yes?
    ensures StagesLexed(c, StagesOf(env, read, ts).value)
    decreases |ts|
  {
    StageKeeps(env, c, ts);
    var s := StageOf(env, ts);
    if Next(s.rest, Semicolon) {
      FineTail(c, s.rest);
      StagesKeep(env, c, read + [s.value], s.rest[1..]);
    }
  }

  lemma HeaderKeeps(env: Env, c: Chars, ts: seq<Token>)
    requires Fine(c, ts) && SequenceOf(env, ts).Yes?
    ensures Fine(c, WithinOf(env, ByOf(env, ts).rest).rest)
  {
    var g := ByOf(env, ts);
    if Kw(ts, "by") {
      FineTail(c, ts);
      FineTail(c, ts[1..]);
    }
    if Kw(g.rest, "within") {
      FineTail(c, g.rest);
      FineTail(c, g.rest[1..]);
    }
  }

  lemma QueryKeeps(env: Env, c: Chars, ts: seq<Token>)
    requires Sane(c) && Fine(c, ts) && QueryOf(env, ts).Yes?
    ensures QueryLexed(c, QueryOf(env, ts).value)
  {
    if Kw(ts, "sequence") {
      FineTail(c, ts);
      HeaderKeeps(env, c, ts[1..]);
      var body := WithinOf(env, ByOf(env, ts[1..]).rest).rest;
      FineTail(c, body);
      StagesKeep(env, c, [], body[1..]);
    } else {
      ClassKeeps(c, ts);
      WhereKeeps(env, c, ClassOf(ts).rest);
      PipesKeep(env, c, [], WhereOf(env, ClassOf(ts).rest).rest);
    }
  }
}
