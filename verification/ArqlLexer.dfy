/** The ARQL lexer, and the text form of tokens that it inverts. */
module ArqlLexer {
  import opened Text
  import opened Arql
  import opened ArqlParser

  /** unicode.IsSpace, IsLetter and IsDigit. */
  datatype Chars = Chars(isSpace: char -> bool, isLetter: char -> bool, isDigit: char -> bool)

  predicate IsAsciiLetter(ch: char) {
    'a' <= ch <= 'z' || 'A' <= ch <= 'Z'
  }

  const PUNCTUATION := "\"'\\=!<>~|(),:;_.-+"

  /** What is used of them: disjoint classes that agree with ASCII. */
  ghost predicate Sane(c: Chars) {
    && (forall ch :: c.isSpace(ch) ==> !c.isLetter(ch) && !c.isDigit(ch))
    && (forall ch :: c.isLetter(ch) ==> !c.isDigit(ch))
    && (forall ch :: IsAsciiLetter(ch) ==> c.isLetter(ch))
    && (forall ch :: IsDigit(ch) ==> c.isDigit(ch))
    && (forall ch :: ch in PUNCTUATION ==> !c.isSpace(ch) && !c.isLetter(ch) && !c.isDigit(ch))
    && c.isSpace(' ')
  }

  // ----- specification: one lexeme of the remaining text -----

  function IdentStart(c: Chars): (keep: char -> bool) {
    ch => c.isLetter(ch) || ch == '_'
  }

  function IdentPart(c: Chars): (keep: char -> bool) {
    ch => c.isLetter(ch) || c.isDigit(ch) || ch == '_' || ch == '.'
  }

  function NumberPart(c: Chars): (keep: char -> bool) {
    ch => c.isDigit(ch) || ch == '.'
  }

  function UnitPart(): (keep: char -> bool) {
    ch => ch == 's' || ch == 'm' || ch == 'h' || ch == 'd'
  }

  /** The length of the longest prefix of kept characters. */
  function Span(keep: char -> bool, s: string): (k: nat)
    ensures k <= |s| && (forall i :: 0 <= i < k ==> keep(s[i])) && (k < |s| ==> !keep(s[k]))
  {
    if s == "" || !keep(s[0]) then 0 else 1 + Span(keep, s[1..])
  }

  datatype Lexeme = Space(rest: string) | Found(t: Token, rest: string) | Bad

  /** The text of a string literal after its opening quote. */
  function StringOf(quote: char, read: string, s: string): (r: Lexeme)
    ensures r.Found? ==> r.t.Quoted? && |r.rest| < |s|
    ensures !r.Space?
    decreases |s|
  {
    if s == "" then Bad
    else if s[0] == '\\' && |s| > 1 then StringOf(quote, read + [s[1]], s[2..])
    else if s[0] == quote then Found(Quoted(read), s[1..])
    else StringOf(quote, read + [s[0]], s[1..])
  }

  function NumberOf(c: Chars, s: string): (r: Lexeme)
    requires s != "" && c.isDigit(s[0])
    ensures r.Found? && |r.rest| < |s|
  {
    var k := Span(NumberPart(c), s);
    if k < |s| && UnitPart()(s[k]) then
      var m := k + Span(UnitPart(), s[k..]);
      Found(Duration(s[..m]), s[m..])
    else Found(Number(s[..k]), s[k..])
  }

  function TwoSymbol(s: string): (t: Option<Op>) {
    if |s| < 2 then None
    else if s[..2] == "==" then Some(Eq)
    else if s[..2] == "!=" then Some(Ne)
    else if s[..2] == ">=" then Some(Ge)
    else if s[..2] == "<=" then Some(Le)
    else if s[..2] == "=~" then Some(Like)
    else None
  }

  function OneSymbol(ch: char): (t: Option<Token>) {
    match ch
    case '>' => Some(Symbol(Gt))
    case '<' => Some(Symbol(Lt))
    case '|' => Some(Bar)
    case '(' => Some(LParen)
    case ')' => Some(RParen)
    case ',' => Some(Comma)
    case ':' => Some(Colon)
    case ';' => Some(Semicolon)
    case _ => None
  }

  function SymbolOf(s: string): (r: Lexeme)
    requires s != ""
    ensures (r.Found? ==> |r.rest| < |s|) && !r.Space?
  {
    if TwoSymbol(s).Some? then Found(Symbol(TwoSymbol(s).value), s[2..])
    else if OneSymbol(s[0]).Some? then Found(OneSymbol(s[0]).value, s[1..])
    else Bad
  }

  function IdentOf(c: Chars, s: string): (r: Lexeme)
    requires s != "" && IdentStart(c)(s[0])
    ensures r.Found? && |r.rest| < |s|
  {
    var k := Span(IdentPart(c), s);
    Found(Ident(s[..k]), s[k..])
  }

  function LexemeOf(c: Chars, s: string): (r: Lexeme)
    requires s != ""
    ensures !r.Bad? ==> |r.rest| < |s|
  {
    if c.isSpace(s[0]) then Space(s[1..])
    else if s[0] == '"' || s[0] == '\'' then StringOf(s[0], "", s[1..])
    else if c.isDigit(s[0]) then NumberOf(c, s)
    else if IdentStart(c)(s[0]) then IdentOf(c, s)
    else SymbolOf(s)
  }

  /** The tokens of a text, after those already read. */
  function LexAll(c: Chars, read: seq<Token>, s: string): (r: Result<seq<Token>>)
    decreases |s|
  {
    if s == "" then Ok(read + [EOF])
    else
      match LexemeOf(c, s)
      case Bad => Err
      case Space(rest) => LexAll(c, read, rest)
      case Found(t, rest) => LexAll(c, read + [t], rest)
  }

  // ----- the lexer -----

  method LexWhile(runes: string, pos: nat, keep: char -> bool) returns (next: nat)
    requires pos <= |runes|
    ensures pos <= next <= |runes| && next == pos + Span(keep, runes[pos..])
  {
    next := pos;
    while next < |runes| && keep(runes[next])
      invariant pos <= next <= |runes|
      invariant forall i :: pos <= i < next ==> keep(runes[i])
    {
      next := next + 1;
    }
    SpanIs(keep, runes[pos..], next - pos);
  }

  lemma {:induction false} SpanIs(keep: char -> bool, s: string, k: nat)
    requires k <= |s| && (forall i :: 0 <= i < k ==> keep(s[i])) && (k < |s| ==> !keep(s[k]))
    ensures Span(keep, s) == k
  {
    if k > 0 { SpanIs(keep, s[1..], k - 1); }
  }

  /** A character of the text and the text from there on. */
  lemma At(runes: string, i: nat)
    requires i < |runes|
    ensures runes[i..] != "" && runes[i..][0] == runes[i] && runes[i..][1..] == runes[i + 1..]
    ensures i + 1 < |runes| ==> |runes[i..]| > 1 && runes[i..][1] == runes[i + 1] && runes[i..][2..] == runes[i + 2..]
  {
  }

  method LexString(runes: string, pos: nat) returns (text: string, next: nat, ok: bool)
    requires pos < |runes|
    ensures
      var r := StringOf(runes[pos], "", runes[pos + 1..]);
      if ok then pos < next <= |runes| && r == Found(Quoted(text), runes[next..]) else r == Bad
  {
    var quote := runes[pos];
    ghost var all := StringOf(quote, "", runes[pos + 1..]);
    text := "";
    var i := pos + 1;
    while i < |runes|
      invariant pos < i <= |runes| && StringOf(quote, text, runes[i..]) == all
      decreases |runes| - i
    {
      At(runes, i);
      if runes[i] == '\\' && i + 1 < |runes| {
        text := text + [runes[i + 1]];
        i := i + 2;
        continue;
      }
      if runes[i] == quote {
        return text, i + 1, true;
      }
      text := text + [runes[i]];
      i := i + 1;
    }
    return "", 0, false;
  }

  method LexNumber(c: Chars, runes: string, pos: nat) returns (t: Token, next: nat)
    requires pos < |runes| && c.isDigit(runes[pos])
    ensures pos < next <= |runes|
    ensures runes[pos..] != "" && runes[pos..][0] == runes[pos] && NumberOf(c, runes[pos..]) == Found(t, runes[next..])
  {
    At(runes, pos);
    next := LexWhile(runes, pos, NumberPart(c));
    ghost var k := next - pos;
    Middle(runes, pos, next);
    if next < |runes| && UnitPart()(runes[next]) {
      var after := LexWhile(runes, next, UnitPart());
      Middle(runes, pos, after);
      UnitsFollow(c, runes[pos..], k, after - pos);
      return Duration(runes[pos..after]), after;
    }
    NumberEnds(c, runes[pos..], k);
    t := Number(runes[pos..next]);
  }

  lemma UnitsFollow(c: Chars, s: string, k: nat, m: nat)
    requires s != "" && c.isDigit(s[0]) && k == Span(NumberPart(c), s) < |s| && UnitPart()(s[k])
    requires k <= m <= |s| && m == k + Span(UnitPart(), s[k..])
    ensures NumberOf(c, s) == Found(Duration(s[..m]), s[m..]) && m > 0
  {
  }

  lemma NumberEnds(c: Chars, s: string, k: nat)
    requires s != "" && c.isDigit(s[0]) && k == Span(NumberPart(c), s) && !(k < |s| && UnitPart()(s[k]))
    ensures NumberOf(c, s) == Found(Number(s[..k]), s[k..]) && k > 0
  {
  }

  lemma Middle(runes: string, pos: nat, next: nat)
    requires pos <= next <= |runes|
    ensures runes[pos..][..next - pos] == runes[pos..next] && runes[pos..][next - pos..] == runes[next..]
    ensures next < |runes| ==> runes[pos..][next - pos] == runes[next]
  {
  }

  method LexSymbol(runes: string, pos: nat) returns (t: Token, next: nat, ok: bool)
    requires pos < |runes|
    ensures runes[pos..] != "" &&
      if ok then pos < next <= |runes| && SymbolOf(runes[pos..]) == Found(t, runes[next..])
      else SymbolOf(runes[pos..]) == Bad
  {
    At(runes, pos);
    var two := if pos + 1 < |runes| then runes[pos..pos + 2] else "";
    assert |runes[pos..]| >= 2 ==> runes[pos..][..2] == two;
    assert |runes[pos..]| < 2 <==> two == "";
    if two in {"==", "!=", ">=", "<=", "=~"} {
      t := Symbol(if two == "==" then Eq else if two == "!=" then Ne
                  else if two == ">=" then Ge else if two == "<=" then Le else Like);
      return t, pos + 2, true;
    }
    var one := OneSymbol(runes[pos]);
    if one.None? { return EOF, 0, false; }
    return one.value, pos + 1, true;
  }

  method Lex(c: Chars, src: string) returns (r: Result<seq<Token>>)
    ensures r == LexAll(c, [], src)
  {
    var tokens: seq<Token> := [];
    var pos := 0;
    assert src[0..] == src;
    while pos < |src|
      invariant pos <= |src| && LexAll(c, tokens, src[pos..]) == LexAll(c, [], src)
      decreases |src| - pos
    {
      At(src, pos);
      var t, next, ok := LexOne(c, src, pos);
      if !ok { return Err; }
      if t.Some? {
        tokens := tokens + [t.value];
      }
      pos := next;
    }
    return Ok(tokens + [EOF]);
  }

  /** The dispatch on the character under the position; white space yields no token. */
  method LexOne(c: Chars, src: string, pos: nat) returns (t: Option<Token>, next: nat, ok: bool)
    requires pos < |src|
    ensures src[pos..] != "" && (ok ==> pos < next <= |src|)
    ensures LexemeOf(c, src[pos..]) ==
      if !ok then Bad else if t.None? then Space(src[next..]) else Found(t.value, src[next..])
  {
    At(src, pos);
    var ch := src[pos];
    if c.isSpace(ch) {
      return None, pos + 1, true;
    }
    if ch == '"' || ch == '\'' {
      var text;
      text, next, ok := LexString(src, pos);
      return Some(Quoted(text)), next, ok;
    }
    var tok := EOF;
    if c.isDigit(ch) {
      tok, next := LexNumber(c, src, pos);
      return Some(tok), next, true;
    }
    if IdentStart(c)(ch) {
      next := LexWhile(src, pos, IdentPart(c));
      Middle(src, pos, next);
      return Some(Ident(src[pos..next])), next, true;
    }
    tok, next, ok := LexSymbol(src, pos);
    return Some(tok), next, ok;
  }
}
