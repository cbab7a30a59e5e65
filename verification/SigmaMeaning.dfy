/** What a compiled Sigma condition means: the truth of its tree, the precedence of its
    operators, lists of conditions, and the action guard. */
module SigmaMeaning {
  import opened Text
  import opened Model
  import opened Stdlib
  import opened Detect
  import opened SigmaCondition

  // ----- the tree has the formula's truth value -----

  ghost function SelectionTruth(sels: Selections, leaf: LeafMeaning): string -> bool {
    (n: string) => n in sels && Holds(sels[n], leaf)
  }

  ghost predicate SelectionsCompile(lib: Lib, sels: Selections) {
    forall n :: n in sels ==> Compiles(lib, sels[n])
  }

  lemma GroupTrees(lib: Lib, cs: seq<Condition>, leaf: LeafMeaning)
    requires cs != []
    ensures Holds(AllTree(cs), leaf) == AllHold(cs, leaf) && Holds(AnyTree(cs), leaf) == AnyHolds(cs, leaf)
    ensures AllCompile(lib, cs) ==> Compiles(lib, AllTree(cs)) && Compiles(lib, AnyTree(cs))
  {
    if |cs| == 1 {
      assert cs == [cs[0]];
      OneHolds(cs[0], leaf);
    } else {
      AllGroupHolds(lib, cs, leaf);
      AnyGroupHolds(lib, cs, leaf);
    }
  }

  lemma QuantifierMeans(f: Formula, sels: Selections, names: seq<string>, lib: Lib, leaf: LeafMeaning)
    requires Named(sels, names) && Wf(f, names) && f.Of?
    ensures Holds(TreeOf(f, sels, names), leaf) == Truth(f, names, SelectionTruth(sels, leaf))
    ensures SelectionsCompile(lib, sels) ==> Compiles(lib, TreeOf(f, sels, names))
  {
    var ms := Matching(names, f.pattern);
    var cs := Chosen(sels, ms);
    GroupTrees(lib, cs, leaf);
    ChosenHold(lib, sels, ms, leaf);
  }

  lemma ChosenHold(lib: Lib, sels: Selections, ms: seq<string>, leaf: LeafMeaning)
    requires forall n :: n in ms ==> n in sels
    ensures AllHold(Chosen(sels, ms), leaf) == (forall n :: n in ms ==> SelectionTruth(sels, leaf)(n))
    ensures AnyHolds(Chosen(sels, ms), leaf) == (exists n :: n in ms && SelectionTruth(sels, leaf)(n))
    ensures SelectionsCompile(lib, sels) ==> AllCompile(lib, Chosen(sels, ms))
  {
    var cs, v := Chosen(sels, ms), SelectionTruth(sels, leaf);
    assert forall i :: 0 <= i < |ms| ==> v(ms[i]) == Holds(cs[i], leaf);
    if AnyHolds(cs, leaf) {
      var i :| 0 <= i < |cs| && Holds(cs[i], leaf);
      assert ms[i] in ms && v(ms[i]);
    }
  }

  ghost predicate Means(f: Formula, sels: Selections, names: seq<string>, lib: Lib, leaf: LeafMeaning)
    requires Named(sels, names) && Wf(f, names)
  {
    && Holds(TreeOf(f, sels, names), leaf) == Truth(f, names, SelectionTruth(sels, leaf))
    && (SelectionsCompile(lib, sels) ==> Compiles(lib, TreeOf(f, sels, names)))
  }

  lemma AllMeans(fs: seq<Formula>, sels: Selections, names: seq<string>, lib: Lib, leaf: LeafMeaning)
    requires Named(sels, names) && AllWf(fs, names) && |fs| >= 2
    requires forall i :: 0 <= i < |fs| ==> Means(fs[i], sels, names, lib, leaf)
    ensures Means(AllOf(fs), sels, names, lib, leaf)
  {
    var cs := TreesOf(fs, sels, names);
    var v := SelectionTruth(sels, leaf);
    assert forall i :: 0 <= i < |fs| ==> Holds(cs[i], leaf) == Truth(fs[i], names, v);
    AllGroupHolds(lib, cs, leaf);
  }

  lemma AnyMeans(fs: seq<Formula>, sels: Selections, names: seq<string>, lib: Lib, leaf: LeafMeaning)
    requires Named(sels, names) && AllWf(fs, names) && |fs| >= 2
    requires forall i :: 0 <= i < |fs| ==> Means(fs[i], sels, names, lib, leaf)
    ensures Means(AnyOf(fs), sels, names, lib, leaf)
  {
    var cs := TreesOf(fs, sels, names);
    var v := SelectionTruth(sels, leaf);
    assert forall i :: 0 <= i < |fs| ==> Holds(cs[i], leaf) == Truth(fs[i], names, v);
    AnyGroupHolds(lib, cs, leaf);
  }

  /** For every formula the parser accepts and every truth assignment to the selections, the
      compiled tree has the formula's truth value, and it loads if the selections do. */
  lemma {:induction false} TreeMeansFormula(
    f: Formula, sels: Selections, names: seq<string>, lib: Lib, leaf: LeafMeaning)
    requires Named(sels, names) && Wf(f, names)
    ensures Means(f, sels, names, lib, leaf)
    decreases f
  {
    match f
    case Sel(name) =>
    case Of(_, _) => QuantifierMeans(f, sels, names, lib, leaf);
    case Neg(i) =>
      TreeMeansFormula(i, sels, names, lib, leaf);
      NotHolds(lib, TreeOf(i, sels, names), leaf);
    case AllOf(fs) =>
      forall i | 0 <= i < |fs| ensures Means(fs[i], sels, names, lib, leaf) {
        TreeMeansFormula(fs[i], sels, names, lib, leaf);
      }
      AllMeans(fs, sels, names, lib, leaf);
    case AnyOf(fs) =>
      forall i | 0 <= i < |fs| ensures Means(fs[i], sels, names, lib, leaf) {
        TreeMeansFormula(fs[i], sels, names, lib, leaf);
      }
      AnyMeans(fs, sels, names, lib, leaf);
  }

  // ----- precedence: `not` over `and` over `or` -----

  /** A formula with a token form: selection names are not read as anything else. */
  ghost predicate Prints(f: Formula, names: seq<string>) {
    match f
    case Sel(name) =>
      name in names && name != "" && name != "(" && !IsQuantifier(name) && !EqualFold(name, "not")
    case Of(_, pattern) => pattern != "" && Matching(names, pattern) != []
    case Neg(i) => Prints(i, names)
    case AllOf(fs) => |fs| >= 2 && forall i :: 0 <= i < |fs| ==> Prints(fs[i], names)
    case AnyOf(fs) => |fs| >= 2 && forall i :: 0 <= i < |fs| ==> Prints(fs[i], names)
  }

  ghost predicate AllPrint(fs: seq<Formula>, names: seq<string>) {
    forall i :: 0 <= i < |fs| ==> Prints(fs[i], names)
  }

  /** The tokens of a formula with parentheses only where the grammar needs them. */
  function PrintNot(f: Formula): (ts: seq<string>)
    decreases f, 0
  {
    match f
    case Sel(name) => [name]
    case Of(every, pattern) => [if every then "all" else "1", "of", pattern]
    case Neg(i) => ["not"] + PrintNot(i)
    case AllOf(fs) => ["("] + (JoinAnd(fs) + [")"])
    case AnyOf(fs) => ["("] + (JoinOr(fs) + [")"])
  }

  function PrintAnd(f: Formula): (ts: seq<string>)
    decreases f, 1
  {
    if f.AllOf? then JoinAnd(f.fs) else PrintNot(f)
  }

  function PrintOr(f: Formula): (ts: seq<string>)
    decreases f, 2
  {
    if f.AnyOf? then JoinOr(f.fs) else PrintAnd(f)
  }

  function JoinAnd(fs: seq<Formula>): (ts: seq<string>)
    decreases fs, 3
  {
    if fs == [] then [] else PrintNot(fs[0]) + MoreAnd(fs[1..])
  }

  function MoreAnd(fs: seq<Formula>): (ts: seq<string>)
    decreases fs, 3
  {
    if fs == [] then [] else ["and"] + (PrintNot(fs[0]) + MoreAnd(fs[1..]))
  }

  function JoinOr(fs: seq<Formula>): (ts: seq<string>)
    decreases fs, 3
  {
    if fs == [] then [] else PrintAnd(fs[0]) + MoreOr(fs[1..])
  }

  function MoreOr(fs: seq<Formula>): (ts: seq<string>)
    decreases fs, 3
  {
    if fs == [] then [] else ["or"] + (PrintAnd(fs[0]) + MoreOr(fs[1..]))
  }

  lemma {:induction false} NotReadsBack(f: Formula, names: seq<string>, rest: seq<string>)
    requires Prints(f, names)
    ensures NotF(names, PrintNot(f) + rest) == Yes(f, rest)
    decreases f, 1
  {
    var ts := PrintNot(f) + rest;
    match f
    case Sel(name) => assert ts[1..] == rest;
    case Of(every, pattern) => OfReadsBack(every, pattern, names, rest);
    case Neg(i) =>
      NotReadsBack(i, names, rest);
      assert ts[1..] == PrintNot(i) + rest;
    case AllOf(fs) =>
      AllReadsBack(fs, names, [")"] + rest);
      GroupReadsBack(f, JoinAnd(fs), names, rest);
    case AnyOf(fs) =>
      AnyReadsBack(fs, names, [")"] + rest);
      GroupReadsBack(f, JoinOr(fs), names, rest);
  }

  lemma OfReadsBack(every: bool, pattern: string, names: seq<string>, rest: seq<string>)
    requires pattern != "" && Matching(names, pattern) != []
    ensures NotF(names, PrintNot(Of(every, pattern)) + rest) == Yes(Of(every, pattern), rest)
  {
    var ts := PrintNot(Of(every, pattern)) + rest;
    assert ts[1] == "of" && ts[2] == pattern && ts[3..] == rest;
    assert Lower("all") == "all" && Lower("1") == "1" && Lower("of") == "of";
    assert ParseInt("1").Some? by { assert FormatInt(1) == "1"; ParseFormatInt(1); }
    assert !EqualFold("1", "not") && !EqualFold("all", "not") by {
      assert Lower("not")[0] == 'n' && Lower("all")[0] == 'a' && |Lower("1")| == 1 && |Lower("not")| == 3;
    }
  }

  lemma GroupReadsBack(f: Formula, inner: seq<string>, names: seq<string>, rest: seq<string>)
    requires OrF(names, inner + ([")"] + rest)) == Yes(f, [")"] + rest)
    ensures NotF(names, ["("] + (inner + [")"]) + rest) == Yes(f, rest)
  {
    var ts := ["("] + (inner + [")"]) + rest;
    assert ts[1..] == inner + ([")"] + rest) && ([")"] + rest)[1..] == rest;
    assert |Lower("(")| == 1 && |Lower("not")| == 3;
  }

  lemma KeywordsDiffer()
    ensures !EqualFold(")", "or") && !EqualFold(")", "and") && !EqualFold("or", "and") && !EqualFold("and", "or")
    ensures EqualFold("or", "or") && EqualFold("and", "and")
  {
    assert |Lower(")")| == 1 && |Lower("or")| == 2 && |Lower("and")| == 3;
  }

  lemma AndStep(read: seq<Formula>, f: Formula, names: seq<string>, ts: seq<string>, more: seq<string>)
    requires NotF(names, ts) == Yes(f, more)
    ensures AndMore(names, read, ["and"] + ts) == AndMore(names, read + [f], more)
  {
    KeywordsDiffer();
    assert (["and"] + ts)[1..] == ts;
  }

  lemma OrStep(read: seq<Formula>, f: Formula, names: seq<string>, ts: seq<string>, more: seq<string>)
    requires AndF(names, ts) == Yes(f, more)
    ensures OrMore(names, read, ["or"] + ts) == OrMore(names, read + [f], more)
  {
    KeywordsDiffer();
    assert (["or"] + ts)[1..] == ts;
  }

  lemma {:induction false} AndMoreReadsBack(read: seq<Formula>, fs: seq<Formula>, names: seq<string>, rest: seq<string>)
    requires AllPrint(fs, names)
    ensures AndMore(names, read, MoreAnd(fs) + rest) == AndMore(names, read + fs, rest)
    decreases fs, 2
  {
    KeywordsDiffer();
    if fs == [] {
      assert MoreAnd(fs) + rest == rest && read + fs == read;
    } else {
      var more := MoreAnd(fs[1..]) + rest;
      NotReadsBack(fs[0], names, more);
      AndStep(read, fs[0], names, PrintNot(fs[0]) + more, more);
      Assoc(PrintNot(fs[0]), MoreAnd(fs[1..]), rest);
      Assoc(["and"], PrintNot(fs[0]) + MoreAnd(fs[1..]), rest);
      AndMoreReadsBack(read + [fs[0]], fs[1..], names, rest);
      MoveHead(read, fs);
    }
  }

  lemma {:induction false} AndReadsBack(f: Formula, names: seq<string>, rest: seq<string>)
    requires Prints(f, names) && !Kw(rest, "and")
    ensures AndF(names, PrintAnd(f) + rest) == Yes(f, rest)
    decreases f, 2
  {
    if f.AllOf? { JoinedAnd(f.fs, names, rest); } else { NotReadsBack(f, names, rest); }
  }

  lemma {:induction false} JoinedAnd(fs: seq<Formula>, names: seq<string>, rest: seq<string>)
    requires |fs| >= 2 && AllPrint(fs, names) && !Kw(rest, "and")
    ensures AndF(names, JoinAnd(fs) + rest) == Yes(AllOf(fs), rest)
    decreases fs, 3
  {
    var more := MoreAnd(fs[1..]) + rest;
    assert JoinAnd(fs) + rest == PrintNot(fs[0]) + more;
    NotReadsBack(fs[0], names, more);
    AndMoreReadsBack([fs[0]], fs[1..], names, rest);
    assert [fs[0]] + fs[1..] == fs;
  }

  lemma {:induction false} AllReadsBack(fs: seq<Formula>, names: seq<string>, rest: seq<string>)
    requires |fs| >= 2 && AllPrint(fs, names) && !Kw(rest, "and") && !Kw(rest, "or")
    ensures OrF(names, JoinAnd(fs) + rest) == Yes(AllOf(fs), rest)
    decreases fs, 4
  {
    JoinedAnd(fs, names, rest);
  }

  lemma {:induction false} OrMoreReadsBack(read: seq<Formula>, fs: seq<Formula>, names: seq<string>, rest: seq<string>)
    requires AllPrint(fs, names) && !Kw(rest, "and")
    ensures OrMore(names, read, MoreOr(fs) + rest) == OrMore(names, read + fs, rest)
    ensures !Kw(MoreOr(fs) + rest, "and")
    decreases fs, 3
  {
    KeywordsDiffer();
    if fs == [] {
      assert MoreOr(fs) + rest == rest && read + fs == read;
    } else {
      var more := MoreOr(fs[1..]) + rest;
      OrMoreReadsBack(read + [fs[0]], fs[1..], names, rest);
      AndReadsBack(fs[0], names, more);
      OrStep(read, fs[0], names, PrintAnd(fs[0]) + more, more);
      Assoc(PrintAnd(fs[0]), MoreOr(fs[1..]), rest);
      Assoc(["or"], PrintAnd(fs[0]) + MoreOr(fs[1..]), rest);
      MoveHead(read, fs);
    }
  }

  lemma {:induction false} AnyReadsBack(fs: seq<Formula>, names: seq<string>, rest: seq<string>)
    requires |fs| >= 2 && AllPrint(fs, names) && !Kw(rest, "and") && !Kw(rest, "or")
    ensures OrF(names, JoinOr(fs) + rest) == Yes(AnyOf(fs), rest)
    decreases fs, 4
  {
    var more := MoreOr(fs[1..]) + rest;
    assert JoinOr(fs) + rest == PrintAnd(fs[0]) + more;
    OrMoreReadsBack([fs[0]], fs[1..], names, rest);
    AndReadsBack(fs[0], names, more);
    assert [fs[0]] + fs[1..] == fs;
  }

  /** Every formula is parsed from its tokens, so `not` binds tighter than `and` and `and`
      tighter than `or`. */
  lemma FormulaReadsBack(f: Formula, names: seq<string>)
    requires Prints(f, names)
    ensures ParseFormula(names, PrintOr(f)) == Ok(f)
  {
    assert PrintOr(f) + [] == PrintOr(f);
    if f.AnyOf? {
      AnyReadsBack(f.fs, names, []);
    } else {
      AndReadsBack(f, names, []);
      assert PrintAnd(f) + [] == PrintOr(f);
      assert OrF(names, PrintOr(f)) == OrMore(names, [f], []);
    }
  }

  // ----- lists of conditions -----

  predicate Closes(tail: seq<string>) {
    tail != [] && tail[0] == ")"
  }

  lemma {:induction false} OrExtends(names: seq<string>, ts: seq<string>, tail: seq<string>)
    requires Closes(tail) && OrF(names, ts).Yes?
    ensures OrF(names, ts + tail) == Yes(OrF(names, ts).f, OrF(names, ts).rest + tail)
    decreases |ts|, 3
  {
    AndExtends(names, ts, tail);
    OrMoreExtends(names, [AndF(names, ts).f], AndF(names, ts).rest, tail);
  }

  lemma {:induction false} OrMoreExtends(names: seq<string>, fs: seq<Formula>, ts: seq<string>, tail: seq<string>)
    requires Closes(tail) && OrMore(names, fs, ts).Yes?
    ensures OrMore(names, fs, ts + tail) == Yes(OrMore(names, fs, ts).f, OrMore(names, fs, ts).rest + tail)
    decreases |ts|, 3
  {
    KeywordsDiffer();
    if Kw(ts, "or") {
      assert (ts + tail)[1..] == ts[1..] + tail;
      AndExtends(names, ts[1..], tail);
      var x := AndF(names, ts[1..]);
      OrMoreExtends(names, fs + [x.f], x.rest, tail);
    }
  }

  lemma {:induction false} AndExtends(names: seq<string>, ts: seq<string>, tail: seq<string>)
    requires Closes(tail) && AndF(names, ts).Yes?
    ensures AndF(names, ts + tail) == Yes(AndF(names, ts).f, AndF(names, ts).rest + tail)
    decreases |ts|, 2
  {
    NotExtends(names, ts, tail);
    AndMoreExtends(names, [NotF(names, ts).f], NotF(names, ts).rest, tail);
  }

  lemma {:induction false} AndMoreExtends(names: seq<string>, fs: seq<Formula>, ts: seq<string>, tail: seq<string>)
    requires Closes(tail) && AndMore(names, fs, ts).Yes?
    ensures AndMore(names, fs, ts + tail) == Yes(AndMore(names, fs, ts).f, AndMore(names, fs, ts).rest + tail)
    decreases |ts|, 2
  {
    KeywordsDiffer();
    if Kw(ts, "and") {
      assert (ts + tail)[1..] == ts[1..] + tail;
      NotExtends(names, ts[1..], tail);
      var x := NotF(names, ts[1..]);
      AndMoreExtends(names, fs + [x.f], x.rest, tail);
    }
  }

  lemma {:induction false} NotExtends(names: seq<string>, ts: seq<string>, tail: seq<string>)
    requires Closes(tail) && NotF(names, ts).Yes?
    ensures NotF(names, ts + tail) == Yes(NotF(names, ts).f, NotF(names, ts).rest + tail)
    decreases |ts|, 1
  {
    assert (ts + tail)[1..] == ts[1..] + tail;
    if Kw(ts, "not") { NotExtends(names, ts[1..], tail); } else { AtomExtends(names, ts, tail); }
  }

  lemma {:induction false} AtomExtends(names: seq<string>, ts: seq<string>, tail: seq<string>)
    requires Closes(tail) && AtomF(names, ts).Yes?
    ensures AtomF(names, ts + tail) == Yes(AtomF(names, ts).f, AtomF(names, ts).rest + tail)
    decreases |ts|, 0
  {
    TailConcat(ts, tail);
    if ts[0] == "(" {
      OrExtends(names, ts[1..], tail);
      TailConcat(OrF(names, ts[1..]).rest, tail);
    } else if IsQuantifier(ts[0]) {
      QuantifierExtends(names, ts, tail);
    }
  }

  lemma QuantifierExtends(names: seq<string>, ts: seq<string>, tail: seq<string>)
    requires ts != [] && QuantifierF(names, ts).Yes?
    ensures QuantifierF(names, ts + tail) == Yes(QuantifierF(names, ts).f, QuantifierF(names, ts).rest + tail)
  {
    assert (ts + tail)[3..] == ts[3..] + tail;
  }

  /** The conditions of a list, each in parentheses, joined with `or`. */
  function ListTokens(es: seq<seq<string>>): (ts: seq<string>)
    decreases |es|, 0
  {
    if es == [] then [] else ["("] + (es[0] + ([")"] + MoreTokens(es[1..])))
  }

  function MoreTokens(es: seq<seq<string>>): (ts: seq<string>)
    decreases |es|, 1
  {
    if es == [] then [] else ["or"] + ListTokens(es)
  }

  ghost predicate AllParse(names: seq<string>, es: seq<seq<string>>, fs: seq<Formula>) {
    |es| == |fs| && forall i :: 0 <= i < |es| ==> ParseFormula(names, es[i]) == Ok(fs[i])
  }

  lemma OneOfList(names: seq<string>, e: seq<string>, f: Formula, rest: seq<string>)
    requires ParseFormula(names, e) == Ok(f) && !Kw(rest, "and")
    ensures AndF(names, ["("] + (e + ([")"] + rest))) == Yes(f, rest)
  {
    InBrackets(names, e, f, rest);
    AloneInAnd(names, ["("] + (e + ([")"] + rest)), f, rest);
  }

  lemma InBrackets(names: seq<string>, e: seq<string>, f: Formula, rest: seq<string>)
    requires ParseFormula(names, e) == Ok(f)
    ensures NotF(names, ["("] + (e + ([")"] + rest))) == Yes(f, rest)
  {
    OrExtends(names, e, [")"] + rest);
    assert [] + ([")"] + rest) == [")"] + rest;
    assert ["("] + (e + ([")"] + rest)) == ["("] + (e + [")"]) + rest;
    GroupReadsBack(f, e, names, rest);
  }

  lemma AloneInAnd(names: seq<string>, ts: seq<string>, f: Formula, rest: seq<string>)
    requires NotF(names, ts) == Yes(f, rest) && !Kw(rest, "and")
    ensures AndF(names, ts) == Yes(f, rest)
  {
  }

  lemma {:induction false} MoreOfList(names: seq<string>, read: seq<Formula>, es: seq<seq<string>>, fs: seq<Formula>)
    requires AllParse(names, es, fs)
    ensures !Kw(MoreTokens(es), "and")
    ensures OrMore(names, read, MoreTokens(es)) == Yes(AnyForm(read + fs), [])
    decreases |es|
  {
    KeywordsDiffer();
    if es == [] {
      assert read + fs == read;
    } else {
      MoreOfList(names, read + [fs[0]], es[1..], fs[1..]);
      OneOfList(names, es[0], fs[0], MoreTokens(es[1..]));
      assert MoreTokens(es)[1..] == ListTokens(es);
      MoveHead(read, fs);
    }
  }

  /** A list of conditions, each valid on its own, is the OR of their formulas. */
  lemma ListIsOr(names: seq<string>, es: seq<seq<string>>, fs: seq<Formula>)
    requires es != [] && AllParse(names, es, fs)
    ensures ParseFormula(names, ListTokens(es)) == Ok(AnyForm(fs))
    ensures forall v :: Truth(AnyForm(fs), names, v) == (exists i :: 0 <= i < |fs| && Truth(fs[i], names, v))
  {
    MoreOfList(names, [fs[0]], es[1..], fs[1..]);
    OneOfList(names, es[0], fs[0], MoreTokens(es[1..]));
    assert [fs[0]] + fs[1..] == fs;
  }

  // ----- the text of a list of conditions tokenizes to the list of tokens -----

  function Word(w: string): (ws: seq<string>) {
    if w == "" then [] else [w]
  }

  /** strings.Fields, with the word read so far. */
  function Fields(w: string, s: string): (ws: seq<string>)
    decreases |s|
  {
    if s == "" then Word(w)
    else if IsSpace(s[0]) then Word(w) + Fields("", s[1..])
    else Fields(w + [s[0]], s[1..])
  }

  function SpreadChar(c: char): (s: string) {
    if c == '(' then " ( " else if c == ')' then " ) " else [c]
  }

  function Spread(s: string): (r: string) {
    if s == "" then "" else SpreadChar(s[0]) + Spread(s[1..])
  }

  function Tokenize(s: string): (ts: seq<string>) {
    Fields("", Spread(s))
  }

  function ListText(es: seq<string>): (s: string) {
    if es == [] then ""
    else if |es| == 1 then "(" + (es[0] + ")")
    else "(" + (es[0] + (")" + (" or " + ListText(es[1..]))))
  }

  lemma {:induction false} SpreadConcat(a: string, b: string)
    ensures Spread(a + b) == Spread(a) + Spread(b)
  {
    if a == "" {
      assert a + b == b;
    } else {
      SpreadConcat(a[1..], b);
      assert (a + b)[1..] == a[1..] + b;
      Assoc(SpreadChar(a[0]), Spread(a[1..]), Spread(b));
    }
  }

  lemma {:induction false} FieldsConcat(w: string, a: string, b: string)
    ensures Fields(w, a + (" " + b)) == Fields(w, a) + Fields("", b)
    decreases |a|
  {
    var s := a + (" " + b);
    if a == "" {
      assert s == " " + b && s[1..] == b;
    } else {
      assert s[1..] == a[1..] + (" " + b);
      if IsSpace(a[0]) {
        FieldsConcat("", a[1..], b);
      } else {
        FieldsConcat(w + [a[0]], a[1..], b);
      }
    }
  }

  lemma OneCharWord(c: char)
    requires !IsSpace(c)
    ensures Fields("", [c]) == [[c]]
  {
    assert [c][1..] == "" && "" + [c] == [c];
    assert Fields("", [c]) == Fields([c], "");
  }

  lemma OpenToken(b: string)
    ensures Tokenize("(" + b) == ["("] + Tokenize(b)
  {
    var s := Spread("(" + b);
    assert ("(" + b)[1..] == b;
    assert s == " ( " + Spread(b) && s[1..] == "(" + (" " + Spread(b));
    FieldsConcat("", "(", Spread(b));
    OneCharWord('(');
  }

  lemma CloseSpread(b: string)
    ensures Spread(")" + b) == " " + (")" + (" " + Spread(b)))
  {
    assert (")" + b)[1..] == b;
  }

  lemma CloseWord(t: string)
    ensures Fields("", ")" + (" " + t)) == [")"] + Fields("", t)
  {
    FieldsConcat("", ")", t);
    OneCharWord(')');
  }

  lemma CloseToken(a: string, b: string)
    ensures Tokenize(a + (")" + b)) == Tokenize(a) + ([")"] + Tokenize(b))
  {
    SpreadConcat(a, ")" + b);
    CloseSpread(b);
    FieldsConcat("", Spread(a), ")" + (" " + Spread(b)));
    CloseWord(Spread(b));
  }

  lemma OrToken(b: string)
    ensures Tokenize(" or " + b) == ["or"] + Tokenize(b)
  {
    SpreadConcat(" or ", b);
    SpreadOr();
    var t := Spread(b);
    assert " or " + t == "" + (" " + ("or" + (" " + t)));
    FieldsConcat("", "", "or" + (" " + t));
    FieldsConcat("", "or", t);
    OrWord();
  }

  lemma OrWord()
    ensures Fields("", "or") == ["or"]
  {
    assert "or"[1..] == "r" && "r"[1..] == "" && "" + ['o'] == "o" && "o" + ['r'] == "or";
    assert Fields("", "or") == Fields("o", "r");
    assert Fields("o", "r") == Fields("or", "");
  }

  lemma SpreadOr()
    ensures Spread(" or ") == " or "
  {
    assert " or "[1..] == "or " && "or "[1..] == "r " && "r "[1..] == " " && " "[1..] == "";
    assert Spread(" ") == " " && Spread("r ") == "r " && Spread("or ") == "or ";
  }

  function TokenLists(es: seq<string>): (ts: seq<seq<string>>)
    ensures |ts| == |es| && forall i :: 0 <= i < |es| ==> ts[i] == Tokenize(es[i])
  {
    seq(|es|, i requires 0 <= i < |es| => Tokenize(es[i]))
  }

  lemma {:induction false} ListTextTokens(es: seq<string>)
    requires es != []
    ensures Tokenize(ListText(es)) == ListTokens(TokenLists(es))
    decreases |es|
  {
    var tail := if |es| == 1 then "" else " or " + ListText(es[1..]);
    assert ListText(es) == "(" + (es[0] + (")" + tail));
    OpenToken(es[0] + (")" + tail));
    CloseToken(es[0], tail);
    assert TokenLists(es)[1..] == TokenLists(es[1..]);
    if |es| > 1 {
      OrToken(ListText(es[1..]));
      ListTextTokens(es[1..]);
    }
  }

  /** The text built for a list of individually valid conditions parses to their OR. */
  lemma ConditionListIsOr(names: seq<string>, es: seq<string>, fs: seq<Formula>)
    requires es != [] && AllParse(names, TokenLists(es), fs)
    ensures ParseFormula(names, Tokenize(ListText(es))) == Ok(AnyForm(fs))
    ensures forall v :: Truth(AnyForm(fs), names, v) == (exists i :: 0 <= i < |fs| && Truth(fs[i], names, v))
  {
    ListTextTokens(es);
    ListIsOr(names, TokenLists(es), fs);
  }

  // ----- the action guard (internal/sigma/sigma.go) -----

  predicate IsAndGroup(c: Condition) {
    |c.all| > 0 && c.any == [] && c.not.None? && c.field == NoField
  }

  function AnchorToAction(action: string, detection: Condition): (c: Condition) {
    var guard := Leaf(EventAction, OpEq, Str(action));
    if IsAndGroup(detection) then AllGroup([guard] + detection.all) else AllGroup([guard, detection])
  }

  /** Anchoring adds exactly the action guard, whether or not it flattens. */
  lemma AnchorMeans(lib: Lib, action: string, detection: Condition, e: Event)
    requires action != "" && Compiles(lib, detection)
    ensures Compiles(lib, AnchorToAction(action, detection))
    ensures EvalCondition(lib, AnchorToAction(action, detection), e) <==>
            e.action == action && EvalCondition(lib, detection, e)
  {
    var guard := Leaf(EventAction, OpEq, Str(action));
    var leaf := OnEvent(lib, e);
    LeafHolds(lib, EventAction, OpEq, Str(action), e);
    OneHolds(guard, leaf);
    var rest := if IsAndGroup(detection) then detection.all else [detection];
    if !IsAndGroup(detection) { OneHolds(detection, leaf); }
    assert AllHold(rest, leaf) == Holds(detection, leaf) && AllCompile(lib, rest);
    assert [guard] + [detection] == [guard, detection];
    AllHoldConcat([guard], rest, leaf);
    AllCompileConcat(lib, [guard], rest);
    AllGroupHolds(lib, [guard] + rest, leaf);
  }
}
