/** Sigma condition expressions: a grammar of formulas, the parser that compiles an
    expression straight to a condition tree, and the truth of that tree. */
module SigmaCondition {
  import opened Text
  import opened Model
  import opened Stdlib
  import opened Detect

  // ----- formulas and their truth -----

  datatype Formula =
    | Sel(name: string)
    | Of(every: bool, pattern: string)
    | Neg(inner: Formula)
    | AllOf(fs: seq<Formula>)
    | AnyOf(fs: seq<Formula>)

  predicate PatternMatches(name: string, pattern: string) {
    if EqualFold(pattern, "them") then true
    else if HasSuffix(pattern, "*") then HasPrefix(name, pattern[..|pattern| - 1])
    else name == pattern
  }

  /** The name starts with this text. */
  ghost predicate Begins(name: string, start: string) {
    exists rest :: name == start + rest
  }

  ghost predicate Starred(pattern: string, start: string) {
    pattern == start + "*"
  }

  /** The selections a quantifier ranges over: `them`, in any spelling, takes every name; a text
      with a star after it takes the names that start with it; any other text itself. */
  ghost predicate Takes(pattern: string, name: string) {
    || Lower(pattern) == "them"
    || (exists start :: Starred(pattern, start) && Begins(name, start))
    || ((forall start :: !Starred(pattern, start)) && name == pattern)
  }

  lemma PatternTakes(pattern: string, name: string)
    ensures PatternMatches(name, pattern) <==> Takes(pattern, name)
  {
    assert Lower("them") == "them";
    if HasSuffix(pattern, "*") {
      var start := pattern[..|pattern| - 1];
      assert Starred(pattern, start);
      forall other | Starred(pattern, other) ensures other == start { assert (other + "*")[..|other|] == other; }
      if HasPrefix(name, start) { assert name == start + name[|start|..]; }
      if Begins(name, start) {
        var rest :| name == start + rest;
        assert name[..|start|] == start;
      }
    } else {
      forall start ensures !Starred(pattern, start) { assert (start + "*")[|start|..] == "*"; }
    }
  }

  /** The truth of a formula, given the truth of each selection. */
  ghost predicate Truth(f: Formula, names: seq<string>, v: string -> bool) {
    match f
    case Sel(name) => v(name)
    case Of(every, pattern) =>
      if every then forall n :: n in names && Takes(pattern, n) ==> v(n)
      else exists n :: n in names && Takes(pattern, n) && v(n)
    case Neg(i) => !Truth(i, names, v)
    case AllOf(fs) => forall i :: 0 <= i < |fs| ==> Truth(fs[i], names, v)
    case AnyOf(fs) => exists i :: 0 <= i < |fs| && Truth(fs[i], names, v)
  }

  // ----- specification: parsing the remaining tokens to a formula -----

  datatype Parsed = Yes(f: Formula, rest: seq<string>) | No

  function Peek(ts: seq<string>): (t: string) {
    if ts == [] then "" else ts[0]
  }

  predicate Kw(ts: seq<string>, word: string) {
    ts != [] && EqualFold(ts[0], word)
  }

  predicate IsQuantifier(token: string) {
    Lower(token) == "all" || Lower(token) == "any" || ParseInt(token).Some?
  }

  function Matching(names: seq<string>, pattern: string): (ms: seq<string>)
    ensures forall n :: n in ms <==> n in names && Takes(pattern, n)
  {
    if names == [] then []
    else
      var init, last := names[..|names| - 1], names[|names| - 1];
      assert names == init + [last];
      PatternTakes(pattern, last);
      Matching(init, pattern) + (if PatternMatches(last, pattern) then [last] else [])
  }

  function AnyForm(fs: seq<Formula>): (f: Formula) {
    if |fs| == 1 then fs[0] else AnyOf(fs)
  }

  function AllForm(fs: seq<Formula>): (f: Formula) {
    if |fs| == 1 then fs[0] else AllOf(fs)
  }

  function OrF(names: seq<string>, ts: seq<string>): (r: Parsed)
    ensures r.Yes? ==> |r.rest| < |ts|
    decreases |ts|, 3
  {
    var x := AndF(names, ts);
    if x.No? then No else OrMore(names, [x.f], x.rest)
  }

  function OrMore(names: seq<string>, fs: seq<Formula>, ts: seq<string>): (r: Parsed)
    ensures r.Yes? ==> |r.rest| <= |ts|
    decreases |ts|, 3
  {
    if !Kw(ts, "or") then Yes(AnyForm(fs), ts)
    else
      var x := AndF(names, ts[1..]);
      if x.No? then No else OrMore(names, fs + [x.f], x.rest)
  }

  function AndF(names: seq<string>, ts: seq<string>): (r: Parsed)
    ensures r.Yes? ==> |r.rest| < |ts|
    decreases |ts|, 2
  {
    var x := NotF(names, ts);
    if x.No? then No else AndMore(names, [x.f], x.rest)
  }

  function AndMore(names: seq<string>, fs: seq<Formula>, ts: seq<string>): (r: Parsed)
    ensures r.Yes? ==> |r.rest| <= |ts|
    decreases |ts|, 2
  {
    if !Kw(ts, "and") then Yes(AllForm(fs), ts)
    else
      var x := NotF(names, ts[1..]);
      if x.No? then No else AndMore(names, fs + [x.f], x.rest)
  }

  function NotF(names: seq<string>, ts: seq<string>): (r: Parsed)
    ensures r.Yes? ==> |r.rest| < |ts|
    decreases |ts|, 1
  {
    if !Kw(ts, "not") then AtomF(names, ts)
    else
      var x := NotF(names, ts[1..]);
      if x.No? then No else Yes(Neg(x.f), x.rest)
  }

  function AtomF(names: seq<string>, ts: seq<string>): (r: Parsed)
    ensures r.Yes? ==> |r.rest| < |ts|
    decreases |ts|, 0
  {
    var token := Peek(ts);
    if token == "" then No
    else if token == "(" then
      var x := OrF(names, ts[1..]);
      if x.No? || Peek(x.rest) != ")" then No else Yes(x.f, x.rest[1..])
    else if IsQuantifier(token) then QuantifierF(names, ts)
    else if token in names then Yes(Sel(token), ts[1..])
    else No
  }

  function QuantifierF(names: seq<string>, ts: seq<string>): (r: Parsed)
    requires ts != []
    ensures r.Yes? ==> |r.rest| < |ts|
  {
    if |ts| < 3 || !EqualFold(ts[1], "of") || ts[2] == "" then No
    else
      var f := Quantified(names, Lower(ts[0]), ts[2]);
      if f.None? then No else Yes(f.value, ts[3..])
  }

  function Quantified(names: seq<string>, word: string, pattern: string): (f: Option<Formula>) {
    if Matching(names, pattern) == [] then None
    else if word == "all" then Some(Of(true, pattern))
    else if word == "1" || word == "any" then Some(Of(false, pattern))
    else None
  }

  /** `all of` a pattern, `any of` it and `1 of` it, in any spelling, if it takes some name; any
      other count is refused. */
  lemma QuantifierWords(names: seq<string>, ts: seq<string>)
    requires |ts| >= 3 && ts[0] != "" && ts[0] != "("
    requires Lower(ts[0]) in {"all", "any"} || ParseInt(ts[0]).Some?
    ensures
      var known := Lower(ts[1]) == "of" && ts[2] != "" && exists n :: n in names && Takes(ts[2], n);
      AtomF(names, ts) ==
      if known && Lower(ts[0]) == "all" then Yes(Of(true, ts[2]), ts[3..])
      else if known && (Lower(ts[0]) == "any" || ts[0] == "1") then Yes(Of(false, ts[2]), ts[3..])
      else No
  {
    assert Lower("of") == "of" && Lower("1") == "1";
    OneIsOne(ts[0]);
    var ms := Matching(names, ts[2]);
    if ms != [] { assert ms[0] in ms; }
  }

  lemma OneIsOne(token: string)
    ensures Lower(token) == "1" <==> token == "1"
  {
    if Lower(token) == "1" { assert Lower(token)[0] == LowerChar(token[0]); }
  }

  /** A whole expression. */
  function ParseFormula(names: seq<string>, ts: seq<string>): (r: Result<Formula>) {
    var x := OrF(names, ts);
    if x.Yes? && x.rest == [] then Ok(x.f) else Err
  }

  // ----- compiling formulas to condition trees -----

  function AllTree(cs: seq<Condition>): (c: Condition) {
    if |cs| == 1 then cs[0] else AllGroup(cs)
  }

  function AnyTree(cs: seq<Condition>): (c: Condition) {
    if |cs| == 1 then cs[0] else AnyGroup(cs)
  }

  type Selections = map<string, Condition>

  ghost predicate Named(sels: Selections, names: seq<string>) {
    forall n :: n in names <==> n in sels
  }

  function Chosen(sels: Selections, ns: seq<string>): (cs: seq<Condition>)
    requires forall n :: n in ns ==> n in sels
    ensures |cs| == |ns| && forall i :: 0 <= i < |ns| ==> cs[i] == sels[ns[i]]
  {
    seq(|ns|, i requires 0 <= i < |ns| => sels[ns[i]])
  }

  /** A formula the parser can produce over these selections. */
  ghost predicate Wf(f: Formula, names: seq<string>) {
    match f
    case Sel(name) => name in names
    case Of(_, pattern) => Matching(names, pattern) != []
    case Neg(i) => Wf(i, names)
    case AllOf(fs) => |fs| >= 2 && forall i :: 0 <= i < |fs| ==> Wf(fs[i], names)
    case AnyOf(fs) => |fs| >= 2 && forall i :: 0 <= i < |fs| ==> Wf(fs[i], names)
  }

  ghost predicate AllWf(fs: seq<Formula>, names: seq<string>) {
    forall i :: 0 <= i < |fs| ==> Wf(fs[i], names)
  }

  ghost function TreeOf(f: Formula, sels: Selections, names: seq<string>): (c: Condition)
    requires Named(sels, names) && Wf(f, names)
    decreases f, 1
  {
    match f
    case Sel(name) => sels[name]
    case Of(every, pattern) =>
      var cs := Chosen(sels, Matching(names, pattern));
      if every then AllTree(cs) else AnyTree(cs)
    case Neg(i) => NotNode(TreeOf(i, sels, names))
    case AllOf(fs) => AllGroup(TreesOf(fs, sels, names))
    case AnyOf(fs) => AnyGroup(TreesOf(fs, sels, names))
  }

  ghost function TreesOf(fs: seq<Formula>, sels: Selections, names: seq<string>): (cs: seq<Condition>)
    requires Named(sels, names) && AllWf(fs, names)
    ensures |cs| == |fs| && forall i :: 0 <= i < |fs| ==> cs[i] == TreeOf(fs[i], sels, names)
    decreases fs, 0
  {
    if fs == [] then [] else
      assert forall i :: 0 <= i < |fs| - 1 ==> fs[..|fs| - 1][i] == fs[i];
      TreesOf(fs[..|fs| - 1], sels, names) + [TreeOf(fs[|fs| - 1], sels, names)]
  }

  lemma FormsCompile(fs: seq<Formula>, sels: Selections, names: seq<string>)
    requires Named(sels, names) && AllWf(fs, names) && fs != []
    ensures Wf(AnyForm(fs), names) && TreeOf(AnyForm(fs), sels, names) == AnyTree(TreesOf(fs, sels, names))
    ensures Wf(AllForm(fs), names) && TreeOf(AllForm(fs), sels, names) == AllTree(TreesOf(fs, sels, names))
  {
  }

  lemma TreesSnoc(fs: seq<Formula>, f: Formula, sels: Selections, names: seq<string>)
    requires Named(sels, names) && AllWf(fs, names) && Wf(f, names)
    ensures AllWf(fs + [f], names)
    ensures TreesOf(fs + [f], sels, names) == TreesOf(fs, sels, names) + [TreeOf(f, sels, names)]
  {
    assert forall i :: 0 <= i < |fs| ==> (fs + [f])[i] == fs[i];
    assert (fs + [f])[|fs|] == f;
    assert AllWf(fs + [f], names);
  }

  lemma MatchingSnoc(names: seq<string>, i: nat, pattern: string)
    requires i < |names|
    ensures Matching(names[..i + 1], pattern) ==
            Matching(names[..i], pattern) + (if PatternMatches(names[i], pattern) then [names[i]] else [])
  {
    assert names[..i + 1][..i] == names[..i];
  }

  lemma ChosenSnoc(sels: Selections, ns: seq<string>, n: string)
    requires n in sels && forall n :: n in ns ==> n in sels
    ensures forall m :: m in ns + [n] ==> m in sels
    ensures Chosen(sels, ns + [n]) == Chosen(sels, ns) + [sels[n]]
  {
  }

  // ----- the parser object (internal/sigma/condition.go) -----

  class ConditionParser {
    const tokens: seq<string>
    const selections: Selections
    const names: seq<string>
    var position: nat

    constructor (tokens: seq<string>, selections: Selections, names: seq<string>)
      requires Named(selections, names)
      ensures Valid() && position == 0
      ensures this.tokens == tokens && this.selections == selections && this.names == names
    {
      this.tokens, this.selections, this.names, position := tokens, selections, names, 0;
    }

    ghost predicate Valid()
      reads this
    {
      position <= |tokens| && Named(selections, names)
    }

    ghost function Rest(): (ts: seq<string>)
      requires position <= |tokens|
      reads this
    {
      tokens[position..]
    }

    /** The tree is the compiled formula that the grammar reads from the old rest. */
    ghost predicate Agrees(spec: Parsed, r: Result<Condition>)
      reads this
    {
      match r
      case Err => spec.No?
      case Ok(c) =>
        Valid() && spec.Yes? && spec.rest == Rest() && Wf(spec.f, names) && c == TreeOf(spec.f, selections, names)
    }

    function Current(): (t: string)
      requires position <= |tokens|
      reads this
      ensures t == Peek(Rest())
    {
      if position < |tokens| then tokens[position] else ""
    }

    method Advance() returns (t: string)
      requires Valid()
      modifies `position
      ensures Valid() && t == Peek(old(Rest()))
      ensures t != "" ==> Rest() == old(Rest())[1..] && position == old(position) + 1
      ensures t == "" ==> position == old(position)
    {
      t := Current();
      if t != "" { position := position + 1; }
    }

    method ConsumeKeyword(word: string) returns (found: bool)
      requires Valid() && word != ""
      modifies `position
      ensures Valid() && found == Kw(old(Rest()), word)
      ensures found ==> Rest() == old(Rest())[1..] && position == old(position) + 1
      ensures !found ==> position == old(position)
    {
      found := EqualFold(Current(), word);
      if found {
        assert |Current()| == |word|;
        position := position + 1;
      }
    }

    method ParseOr() returns (r: Result<Condition>)
      requires Valid()
      modifies `position
      ensures Agrees(OrF(names, old(Rest())), r)
      ensures old(position) <= position <= |tokens|
      decreases |tokens| - position, 4
    {
      var first := ParseAnd();
      if first.Err? { return Err; }
      ghost var fs := [AndF(names, old(Rest())).f];
      var terms := [first.value];
      while true
        invariant Valid() && position > old(position) && fs != [] && AllWf(fs, names)
        invariant terms == TreesOf(fs, selections, names)
        invariant OrMore(names, fs, Rest()) == OrF(names, old(Rest()))
        decreases |tokens| - position
      {
        var more := ConsumeKeyword("or");
        if !more { break; }
        ghost var x := AndF(names, Rest());
        var next := ParseAnd();
        if next.Err? { return Err; }
        TreesSnoc(fs, x.f, selections, names);
        terms, fs := terms + [next.value], fs + [x.f];
      }
      FormsCompile(fs, selections, names);
      r := Ok(AnyTree(terms));
    }

    method ParseAnd() returns (r: Result<Condition>)
      requires Valid()
      modifies `position
      ensures Agrees(AndF(names, old(Rest())), r)
      ensures old(position) <= position <= |tokens| && (r.Ok? ==> position > old(position))
      decreases |tokens| - position, 3
    {
      var first := ParseNot();
      if first.Err? { return Err; }
      ghost var fs := [NotF(names, old(Rest())).f];
      var terms := [first.value];
      while true
        invariant Valid() && position > old(position) && fs != [] && AllWf(fs, names)
        invariant terms == TreesOf(fs, selections, names)
        invariant AndMore(names, fs, Rest()) == AndF(names, old(Rest()))
        decreases |tokens| - position
      {
        var more := ConsumeKeyword("and");
        if !more { break; }
        ghost var x := NotF(names, Rest());
        var next := ParseNot();
        if next.Err? { return Err; }
        TreesSnoc(fs, x.f, selections, names);
        terms, fs := terms + [next.value], fs + [x.f];
      }
      FormsCompile(fs, selections, names);
      r := Ok(AllTree(terms));
    }

    method ParseNot() returns (r: Result<Condition>)
      requires Valid()
      modifies `position
      ensures Agrees(NotF(names, old(Rest())), r)
      ensures old(position) <= position <= |tokens| && (r.Ok? ==> position > old(position))
      decreases |tokens| - position, 2
    {
      var negated := ConsumeKeyword("not");
      if negated {
        var inner := ParseNot();
        return if inner.Ok? then Ok(NotNode(inner.value)) else Err;
      }
      r := ParseAtom();
    }

    method ParseAtom() returns (r: Result<Condition>)
      requires Valid()
      modifies `position
      ensures Agrees(AtomF(names, old(Rest())), r)
      ensures old(position) <= position <= |tokens| && (r.Ok? ==> position > old(position))
      decreases |tokens| - position, 1
    {
      var token := Current();
      if token == "" { return Err; }
      if token == "(" { r := ParseGroup(); return; }
      if IsQuantifier(token) { r := ParseQuantifier(); return; }
      token := Advance();
      r := if token in selections then Ok(selections[token]) else Err;
    }

    method ParseGroup() returns (r: Result<Condition>)
      requires Valid() && Current() == "("
      modifies `position
      ensures Agrees(AtomF(names, old(Rest())), r)
      ensures old(position) < position <= |tokens|
      decreases |tokens| - position, 0
    {
      var token := Advance();
      r := ParseOr();
      if r.Ok? {
        if Current() != ")" { return Err; }
        token := Advance();
      }
    }

    method SelectionsMatching(pattern: string) returns (matched: seq<Condition>)
      requires Valid()
      ensures matched == Chosen(selections, Matching(names, pattern))
    {
      matched := [];
      for i := 0 to |names|
        invariant matched == Chosen(selections, Matching(names[..i], pattern))
      {
        MatchingSnoc(names, i, pattern);
        if PatternMatches(names[i], pattern) {
          ChosenSnoc(selections, Matching(names[..i], pattern), names[i]);
          matched := matched + [selections[names[i]]];
        }
      }
      assert names[..|names|] == names;
    }

    method ParseQuantifier() returns (r: Result<Condition>)
      requires Valid() && Current() != ""
      modifies `position
      ensures Agrees(QuantifierF(names, old(Rest())), r)
      ensures old(position) < position <= |tokens|
    {
      ghost var start := Rest();
      var word := Advance();
      word := Lower(word);
      var found := ConsumeKeyword("of");
      if !found { return Err; }
      assert start[1..][0] == start[1] && Rest() == start[2..];
      var pattern := Advance();
      if pattern == "" { return Err; }
      assert pattern == start[2] && Rest() == start[3..];
      var matched := SelectionsMatching(pattern);
      if matched == [] { return Err; }
      if word == "all" {
        r := Ok(AllTree(matched));
      } else if word == "1" || word == "any" {
        r := Ok(AnyTree(matched));
      } else {
        r := Err;
      }
    }
  }

  /** parseCondition: the tree is the compiled formula of the whole token list, and there is
      a tree exactly when there is a formula. */
  method ParseCondition(tokens: seq<string>, selections: Selections, names: seq<string>) returns (r: Result<Condition>)
    requires Named(selections, names)
    ensures r.Ok? <==> ParseFormula(names, tokens).Ok?
    ensures r.Ok? ==>
              Wf(ParseFormula(names, tokens).value, names) &&
              r.value == TreeOf(ParseFormula(names, tokens).value, selections, names)
  {
    var p := new ConditionParser(tokens, selections, names);
    r := p.ParseOr();
    if r.Ok? && p.position != |p.tokens| { r := Err; }
  }
}
