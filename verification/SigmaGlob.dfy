/** Sigma wildcard strings: the operator chosen for a value, the regular expression built
    for it, and the glob language both are meant to accept. */
module SigmaGlob {
  import opened Text
  import opened Model
  import opened Stdlib
  import opened Detect

  // ----- specification: globs -----

  predicate NoNewline(s: string) {
    '\n' !in s
  }

  /** `*` is any text, `?` any one character, everything else itself. In a `line` glob the
      wildcards do not match a newline. */
  ghost predicate Glob(p: string, s: string, line: bool)
    decreases |p|, 0
  {
    if p == "" then s == ""
    else if p[0] == '*' then StarGlob(p[1..], s, line)
    else s != "" && OneMatches(p[0], s[0], line) && Glob(p[1..], s[1..], line)
  }

  ghost predicate StarGlob(p: string, s: string, line: bool)
    decreases |p|, 1
  {
    exists k :: 0 <= k <= |s| && (line ==> NoNewline(s[..k])) && Glob(p, s[k..], line)
  }

  predicate OneMatches(p: char, c: char, line: bool) {
    if p == '?' then line ==> c != '\n' else p == c
  }

  // ----- specification: the regular expressions of the fragment -----

  /** The meaning of an anchored expression after its `^`: items `.*`, `.`, an escaped
      character or a plain one, then `$`. A dot does not match a newline. */
  ghost predicate RegexBody(t: string, s: string)
    decreases |t|, 0
  {
    if t == "$" then s == ""
    else if |t| >= 2 && t[0] == '.' && t[1] == '*' then RegexStar(t[2..], s)
    else if |t| >= 2 && t[0] == '\\' then s != "" && s[0] == t[1] && RegexBody(t[2..], s[1..])
    else t != "" && s != "" && (if t[0] == '.' then s[0] != '\n' else s[0] == t[0]) && RegexBody(t[1..], s[1..])
  }

  ghost predicate RegexStar(t: string, s: string)
    decreases |t|, 1
  {
    exists k :: 0 <= k <= |s| && NoNewline(s[..k]) && RegexBody(t, s[k..])
  }

  ghost predicate RegexMatches(t: string, s: string) {
    t != "" && t[0] == '^' && RegexBody(t[1..], s)
  }

  // ----- the code (internal/sigma/detection.go) -----

  const META := "\\.+()|[]{}^$"

  function RegexItem(c: char): (t: string) {
    if c == '*' then ".*" else if c == '?' then "." else if c in META then ['\\', c] else [c]
  }

  function RegexItems(p: string): (t: string) {
    if p == "" then "" else RegexItem(p[0]) + RegexItems(p[1..])
  }

  function ToRegex(p: string): (t: string) {
    "^" + (RegexItems(p) + "$")
  }

  method WildcardToRegex(pattern: string) returns (regex: string)
    ensures regex == ToRegex(pattern)
  {
    regex := "^";
    for i := 0 to |pattern|
      invariant regex == "^" + RegexItems(pattern[..i])
    {
      RegexItemsSnoc(pattern[..i], pattern[i]);
      assert pattern[..i + 1] == pattern[..i] + [pattern[i]];
      regex := regex + RegexItem(pattern[i]);
    }
    assert pattern[..|pattern|] == pattern;
    regex := regex + "$";
  }

  lemma {:induction false} RegexItemsSnoc(p: string, c: char)
    ensures RegexItems(p + [c]) == RegexItems(p) + RegexItem(c)
  {
    if p == "" {
      assert p + [c] == [c] && RegexItems([c][1..]) == "";
    } else {
      assert (p + [c])[1..] == p[1..] + [c];
      RegexItemsSnoc(p[1..], c);
    }
  }

  function TrimLeft(s: string): (r: string)
    ensures r == "" || r[0] != '*'
  {
    if s != "" && s[0] == '*' then TrimLeft(s[1..]) else s
  }

  function TrimRight(s: string): (r: string)
    ensures r <= s && (r == "" || r[|r| - 1] != '*')
  {
    if s != "" && s[|s| - 1] == '*' then TrimRight(s[..|s| - 1]) else s
  }

  /** strings.Trim(s, "*") */
  function Core(s: string): (r: string) {
    TrimRight(TrimLeft(s))
  }

  predicate Plain(s: string) {
    '*' !in s && '?' !in s
  }

  function InferOp(value: string): (r: (RuleOp, string)) {
    var leading, trailing := HasPrefix(value, "*"), HasSuffix(value, "*");
    if !Plain(Core(value)) then (OpRegex, ToRegex(value))
    else if leading && trailing then (OpContains, Core(value))
    else if leading then (OpEndsWith, Core(value))
    else if trailing then (OpStartsWith, Core(value))
    else (OpEq, value)
  }

  // ----- the regular expression accepts the line glob -----

  lemma {:induction false} RegexIsLineGlob(p: string, s: string)
    ensures RegexBody(RegexItems(p) + "$", s) == Glob(p, s, true)
    decreases |p|
  {
    var t := RegexItems(p) + "$";
    if p == "" {
      assert t == "$";
    } else {
      var rest := RegexItems(p[1..]) + "$";
      assert t == RegexItem(p[0]) + rest;
      if p[0] == '*' {
        assert t[2..] == rest;
        forall k | 0 <= k <= |s| ensures RegexBody(rest, s[k..]) == Glob(p[1..], s[k..], true) {
          RegexIsLineGlob(p[1..], s[k..]);
        }
      } else {
        RegexOneItem(p[0], rest, s);
        if s != "" { RegexIsLineGlob(p[1..], s[1..]); }
      }
    }
  }

  lemma RegexOneItem(c: char, rest: string, s: string)
    requires c != '*' && rest != "" && rest[0] != '*'
    ensures RegexBody(RegexItem(c) + rest, s) == (s != "" && OneMatches(c, s[0], true) && RegexBody(rest, s[1..]))
  {
    var t := RegexItem(c) + rest;
    if c != '?' && c in META {
      assert t[2..] == rest;
    } else {
      assert t[1..] == rest;
    }
  }

  /** Without newlines in the subject the two globs are the same. */
  lemma {:induction false} LineGlobIsGlob(p: string, s: string)
    requires NoNewline(s)
    ensures Glob(p, s, true) == Glob(p, s, false)
    decreases |p|
  {
    if p != "" {
      if p[0] == '*' {
        forall k | 0 <= k <= |s| ensures Glob(p[1..], s[k..], true) == Glob(p[1..], s[k..], false) {
          LineGlobIsGlob(p[1..], s[k..]);
        }
      } else if s != "" {
        LineGlobIsGlob(p[1..], s[1..]);
      }
    }
  }

  // ----- the other operators accept the glob -----

  ghost predicate AllStars(s: string) {
    forall i :: 0 <= i < |s| ==> s[i] == '*'
  }

  lemma {:induction false} StarsThen(stars: string, q: string, s: string)
    requires stars != "" && AllStars(stars)
    ensures Glob(stars + q, s, false) == StarGlob(q, s, false)
    decreases |stars|
  {
    var rest := stars[1..];
    assert (stars + q)[1..] == rest + q;
    if rest == "" {
      assert rest + q == q;
    } else {
      forall k | 0 <= k <= |s| ensures Glob(rest + q, s[k..], false) == StarGlob(q, s[k..], false) {
        StarsThen(rest, q, s[k..]);
      }
      StarStar(q, s);
      assert Glob(stars + q, s, false) == StarGlob(rest + q, s, false);
    }
  }

  /** Two stars are one. */
  lemma StarStar(q: string, s: string)
    ensures (exists k :: 0 <= k <= |s| && StarGlob(q, s[k..], false)) == StarGlob(q, s, false)
  {
    if StarGlob(q, s, false) {
      assert s[0..] == s;
    }
    forall k | 0 <= k <= |s| && StarGlob(q, s[k..], false) ensures StarGlob(q, s, false) {
      var m :| 0 <= m <= |s[k..]| && Glob(q, s[k..][m..], false);
      assert s[k..][m..] == s[k + m..];
    }
  }

  lemma {:induction false} PlainThen(core: string, q: string, s: string)
    requires Plain(core)
    ensures Glob(core + q, s, false) == (core <= s && Glob(q, s[|core|..], false))
    decreases |core|
  {
    if core == "" {
      assert core + q == q && s[0..] == s;
    } else {
      assert (core + q)[1..] == core[1..] + q;
      if s != "" {
        PlainThen(core[1..], q, s[1..]);
        assert core <= s <==> core[0] == s[0] && core[1..] <= s[1..];
        if core <= s { assert s[1..][|core| - 1..] == s[|core|..]; }
      }
    }
  }

  lemma StarsMatchAll(stars: string, s: string)
    requires stars != "" && AllStars(stars)
    ensures Glob(stars, s, false)
  {
    StarsThen(stars, "", s);
    assert stars + "" == stars && s[|s|..] == "";
    assert Glob("", s[|s|..], false);
  }

  lemma PlainIsEq(core: string, s: string)
    requires Plain(core)
    ensures Glob(core, s, false) == (s == core)
  {
    PlainThen(core, "", s);
    assert core + "" == core;
    if core <= s { assert s == core + s[|core|..]; }
  }

  lemma StarredIsPrefix(core: string, stars: string, s: string)
    requires Plain(core) && stars != "" && AllStars(stars)
    ensures Glob(core + stars, s, false) == HasPrefix(s, core)
  {
    PlainThen(core, stars, s);
    if core <= s { StarsMatchAll(stars, s[|core|..]); }
  }

  lemma StarredIsSuffix(stars: string, core: string, s: string)
    requires Plain(core) && stars != "" && AllStars(stars)
    ensures Glob(stars + core, s, false) == HasSuffix(s, core)
  {
    StarsThen(stars, core, s);
    forall k | 0 <= k <= |s| ensures Glob(core, s[k..], false) == (s[k..] == core) {
      PlainIsEq(core, s[k..]);
    }
    if HasSuffix(s, core) { assert Glob(core, s[|s| - |core|..], false); }
  }

  lemma StarredIsContains(left: string, core: string, right: string, s: string)
    requires Plain(core) && left != "" && AllStars(left) && right != "" && AllStars(right)
    ensures Glob(left + (core + right), s, false) == Contains(s, core)
  {
    StarsThen(left, core + right, s);
    forall k | 0 <= k <= |s| ensures Glob(core + right, s[k..], false) == HasPrefix(s[k..], core) {
      StarredIsPrefix(core, right, s[k..]);
    }
  }

  // ----- trimming -----

  lemma {:induction false} TrimLeftSplits(s: string) returns (stars: string)
    ensures s == stars + TrimLeft(s) && AllStars(stars)
    ensures stars != "" <==> HasPrefix(s, "*")
  {
    if s != "" && s[0] == '*' {
      var more := TrimLeftSplits(s[1..]);
      stars := "*" + more;
    } else {
      stars := "";
    }
  }

  lemma {:induction false} TrimRightSplits(s: string) returns (stars: string)
    ensures s == TrimRight(s) + stars && AllStars(stars)
    ensures stars != "" <==> HasSuffix(s, "*")
  {
    if s != "" && s[|s| - 1] == '*' {
      var more := TrimRightSplits(s[..|s| - 1]);
      stars := more + "*";
    } else {
      stars := "";
    }
  }

  lemma {:induction false} TrimLeftOfStars(s: string)
    requires AllStars(s)
    ensures TrimLeft(s) == ""
  {
    if s != "" { TrimLeftOfStars(s[1..]); }
  }

  /** On a value whose core has no wildcard, what InferOp picks accepts the glob. */
  ghost predicate TextAccepts(r: (RuleOp, string), s: string) {
    match r.0
    case OpEq => s == r.1
    case OpContains => Contains(s, r.1)
    case OpStartsWith => HasPrefix(s, r.1)
    case OpEndsWith => HasSuffix(s, r.1)
    case OpRegex => RegexMatches(r.1, s)
    case _ => false
  }

  lemma AllStarsValue(value: string, s: string)
    requires value != "" && AllStars(value)
    ensures TextAccepts(InferOp(value), s) && Glob(value, s, false)
  {
    StarsMatchAll(value, s);
    TrimLeftOfStars(value);
    assert HasSuffix(value, "*") && "" <= s[0..];
  }

  lemma PlainCoreAccepts(value: string, s: string)
    requires Plain(Core(value))
    ensures TextAccepts(InferOp(value), s) == Glob(value, s, false)
  {
    var left := TrimLeftSplits(value);
    var mid := TrimLeft(value);
    if mid == "" {
      assert value == left;
      if value == "" { PlainIsEq("", s); } else { AllStarsValue(value, s); }
    } else {
      var right := TrimRightSplits(mid);
      var core := Core(value);
      assert value == left + (core + right);
      assert HasSuffix(value, "*") == HasSuffix(mid, "*") by {
        assert value[|value| - 1] == mid[|mid| - 1];
      }
      if left != "" && right != "" {
        StarredIsContains(left, core, right, s);
      } else if left != "" {
        assert core + right == core;
        StarredIsSuffix(left, core, s);
      } else if right != "" {
        assert value == core + right;
        StarredIsPrefix(core, right, s);
      } else {
        assert value == core;
        PlainIsEq(core, s);
      }
    }
  }

  // ----- the exact statement -----

  /** For every value and every subject: with a wildcard inside the core the choice accepts
      the line glob, otherwise the glob. */
  lemma InferredAccepts(value: string, s: string)
    ensures TextAccepts(InferOp(value), s) == Glob(value, s, !Plain(Core(value)))
  {
    if Plain(Core(value)) {
      PlainCoreAccepts(value, s);
    } else {
      RegexIsLineGlob(value, s);
      assert ToRegex(value)[1..] == RegexItems(value) + "$";
    }
  }

  /** On subjects without a newline the choice accepts exactly the glob. */
  lemma InferredIsGlob(value: string, s: string)
    requires NoNewline(s)
    ensures TextAccepts(InferOp(value), s) == Glob(value, s, false)
  {
    InferredAccepts(value, s);
    LineGlobIsGlob(value, s);
  }

  function Newlines(s: string): (n: nat) {
    if s == "" then 0 else (if s[0] == '\n' then 1 else 0) + Newlines(s[1..])
  }

  lemma {:induction false} NewlinesSplit(s: string, k: nat)
    requires k <= |s|
    ensures Newlines(s) == Newlines(s[..k]) + Newlines(s[k..])
  {
    if k == 0 {
      assert s[0..] == s && s[..0] == "";
    } else {
      NewlinesSplit(s[1..], k - 1);
      assert s[..k][1..] == s[1..][..k - 1] && s[1..][k - 1..] == s[k..];
    }
  }

  lemma {:induction false} NoNewlines(s: string)
    requires NoNewline(s)
    ensures Newlines(s) == 0
  {
    if s != "" { NoNewlines(s[1..]); }
  }

  /** A line glob matches only subjects with exactly the pattern's own newlines. */
  lemma {:induction false} LineGlobCountsNewlines(p: string, s: string)
    requires Glob(p, s, true)
    ensures Newlines(s) == Newlines(p)
    decreases |p|
  {
    if p != "" {
      if p[0] == '*' {
        var k :| 0 <= k <= |s| && NoNewline(s[..k]) && Glob(p[1..], s[k..], true);
        LineGlobCountsNewlines(p[1..], s[k..]);
        NewlinesSplit(s, k);
        NoNewlines(s[..k]);
      } else {
        LineGlobCountsNewlines(p[1..], s[1..]);
      }
    }
  }

  /** The subject that puts a newline for every wildcard. */
  function NewlineForWildcards(p: string): (s: string) {
    if p == "" then "" else [if p[0] == '*' || p[0] == '?' then '\n' else p[0]] + NewlineForWildcards(p[1..])
  }

  lemma {:induction false} NewlineForWildcardsMatches(p: string)
    ensures Glob(p, NewlineForWildcards(p), false)
    ensures Newlines(NewlineForWildcards(p)) >= Newlines(p)
    ensures !Plain(p) ==> Newlines(NewlineForWildcards(p)) > Newlines(p)
  {
    if p != "" {
      NewlineForWildcardsMatches(p[1..]);
      var s := NewlineForWildcards(p);
      assert s[1..] == NewlineForWildcards(p[1..]);
      assert p == [p[0]] + p[1..];
      if p[0] == '*' { assert Glob(p[1..], s[1..], false); }
    }
  }

  lemma PlainPartsOfPlain(value: string)
    requires !Plain(Core(value))
    ensures !Plain(value)
  {
    var left := TrimLeftSplits(value);
    var right := TrimRightSplits(TrimLeft(value));
    assert value == left + (Core(value) + right);
  }

  /** The choice accepts the glob on every subject exactly when no regular expression is
      needed: a wildcard inside the core fails on some subject with a newline. */
  lemma AgreesExactlyWithoutRegex(value: string)
    ensures (forall s :: TextAccepts(InferOp(value), s) == Glob(value, s, false)) <==> Plain(Core(value))
  {
    if Plain(Core(value)) {
      forall s ensures TextAccepts(InferOp(value), s) == Glob(value, s, false) {
        PlainCoreAccepts(value, s);
      }
    } else {
      PlainPartsOfPlain(value);
      var s := NewlineForWildcards(value);
      NewlineForWildcardsMatches(value);
      InferredAccepts(value, s);
      if Glob(value, s, true) { LineGlobCountsNewlines(value, s); }
      assert TextAccepts(InferOp(value), s) != Glob(value, s, false);
    }
  }

  // ----- in the detection engine -----

  lemma EqualityIfPlain(value: string)
    ensures InferOp(value).0 == OpEq <==> Plain(value)
    ensures Plain(value) ==> InferOp(value).1 == value
  {
    if Plain(value) {
      assert Core(value) == value;
    } else if !HasPrefix(value, "*") && !HasSuffix(value, "*") {
      assert Core(value) == value;
    }
  }

  /** A value that is not text is compared with the number or the truth value that a string
      without wildcards denotes. */
  ghost predicate Denotes(value: string, v: FieldValue) {
    match v
    case StrValue(s) => Glob(value, s, !Plain(Core(value)))
    case BoolValue(b) => Plain(value) && ToBool(Str(value)) == Some(b)
    case IntValue(n) => Plain(value) && ToInt64(Str(value)) == Some(n)
  }

  lemma TextDenotes(lib: Lib, value: string, s: string)
    requires forall t :: lib.regexMatch(ToRegex(value), t) == RegexMatches(ToRegex(value), t)
    ensures LeafTest(lib, InferOp(value).0, Str(InferOp(value).1), Some(StrValue(s))) == Denotes(value, StrValue(s))
  {
    InferredAccepts(value, s);
  }

  lemma OtherDenotes(lib: Lib, value: string, v: FieldValue)
    requires !v.StrValue?
    ensures LeafTest(lib, InferOp(value).0, Str(InferOp(value).1), Some(v)) == Denotes(value, v)
  {
    EqualityIfPlain(value);
  }

  /** The rule leaf for a Sigma string fires on an event exactly when the field is present and
      its value matches the glob, or is the one the string denotes. */
  lemma SigmaLeafFires(lib: Lib, field: FieldPath, value: string, e: Event)
    requires forall s :: lib.regexMatch(ToRegex(value), s) == RegexMatches(ToRegex(value), s)
    requires field != NoField
    ensures
      var r := InferOp(value);
      EvalCondition(lib, Leaf(field, r.0, Str(r.1)), e) ==
      (Field(e, field).Some? && Denotes(value, Field(e, field).value))
  {
    var r, raw := InferOp(value), Field(e, field);
    LeafHolds(lib, field, r.0, Str(r.1), e);
    if raw.Some? && raw.value.StrValue? {
      TextDenotes(lib, value, raw.value.s);
    } else if raw.Some? {
      OtherDenotes(lib, value, raw.value);
    }
  }
}
