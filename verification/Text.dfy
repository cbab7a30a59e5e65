/** String helpers shared by the models: the parts of Go's `strings` and `strconv`
    packages that the modelled code calls, plus byte-wise string ordering. */
module Text {

  datatype Option<+T> = None | Some(value: T)

  datatype Result<+T> = Ok(value: T) | Err

  type Byte = n: nat | n < 256

  function AsSeq<T>(x: Option<T>): (xs: seq<T>) {
    if x.Some? then [x.value] else []
  }

  predicate Contains(s: string, sub: string) {
    exists i :: 0 <= i <= |s| && sub <= s[i..]
  }

  predicate HasPrefix(s: string, p: string) {
    p <= s
  }

  predicate HasSuffix(s: string, p: string) {
    |p| <= |s| && s[|s| - |p|..] == p
  }

  // ----- sequences -----

  function Init<T>(xs: seq<T>): (r: seq<T>)
    requires xs != []
    ensures |r| == |xs| - 1
  {
    xs[..|xs| - 1]
  }

  function Last<T>(xs: seq<T>): (x: T)
    requires xs != []
  {
    xs[|xs| - 1]
  }

  lemma InitLast<T>(xs: seq<T>)
    requires xs != []
    ensures xs[..|xs| - 1] + [xs[|xs| - 1]] == xs
  {
  }

  lemma Assoc<T>(a: seq<T>, b: seq<T>, c: seq<T>)
    ensures (a + b) + c == a + (b + c)
  {
  }

  lemma TailConcat<T>(xs: seq<T>, ys: seq<T>)
    requires xs != []
    ensures (xs + ys)[0] == xs[0] && (xs + ys)[1..] == xs[1..] + ys
  {
  }

  lemma MoveHead<T>(read: seq<T>, xs: seq<T>)
    requires xs != []
    ensures read + [xs[0]] + xs[1..] == read + xs
  {
  }

  /** Text up to its first separator, and the rest, are determined by the whole. */
  lemma {:induction false} SplitUnique(p: string, a: string, q: string, b: string, sep: char)
    requires sep !in p && sep !in q && p + ([sep] + a) == q + ([sep] + b)
    ensures p == q && a == b
  {
    var s := p + ([sep] + a);
    StartsWithSeparator(p, a, sep);
    StartsWithSeparator(q, b, sep);
    if p == "" {
      assert s[1..] == a && s[1..] == b;
    } else {
      assert s[0] == p[0] == q[0];
      assert s[1..] == p[1..] + ([sep] + a) == q[1..] + ([sep] + b);
      SplitUnique(p[1..], a, q[1..], b, sep);
    }
  }

  lemma StartsWithSeparator(p: string, a: string, sep: char)
    requires sep !in p
    ensures (p + ([sep] + a))[0] == sep <==> p == ""
  {
    if p != "" { assert (p + ([sep] + a))[0] == p[0]; }
  }

  /** Likewise for text after its last separator. */
  lemma SplitLastUnique<T>(p: seq<T>, a: seq<T>, q: seq<T>, b: seq<T>, sep: T)
    requires sep !in a && sep !in b && p + [sep] + a == q + [sep] + b
    ensures p == q && a == b
  {
    if |a| < |b| {
      SeparatorInLonger(p, a, q, b, sep);
    } else if |b| < |a| {
      SeparatorInLonger(q, b, p, a, sep);
    } else {
      var s, t := p + [sep] + a, q + [sep] + b;
      assert s[..|p|] == p && t[..|q|] == q && s[|p| + 1..] == a && t[|q| + 1..] == b;
    }
  }

  lemma SeparatorInLonger<T>(p: seq<T>, a: seq<T>, q: seq<T>, b: seq<T>, sep: T)
    requires p + [sep] + a == q + [sep] + b && |a| < |b|
    ensures sep in b
  {
    assert (p + [sep] + a)[|p|] == (q + [sep] + b)[|p|] == b[|p| - |q| - 1];
  }

  /** Splitting at every separator, with the part read so far. */
  function SplitOn<T(==)>(sep: T, part: seq<T>, s: seq<T>): (parts: seq<seq<T>>)
    decreases |s|
  {
    if s == [] then [part]
    else if s[0] == sep then [part] + SplitOn(sep, [], s[1..])
    else SplitOn(sep, part + [s[0]], s[1..])
  }

  lemma {:induction false} SplitOnOne<T>(sep: T, part: seq<T>, s: seq<T>, rest: seq<T>)
    requires sep !in s
    ensures SplitOn(sep, part, s + ([sep] + rest)) == [part + s] + SplitOn(sep, [], rest)
    ensures SplitOn(sep, part, s) == [part + s]
    decreases |s|
  {
    var t := s + ([sep] + rest);
    if s == [] {
      assert t == [sep] + rest && t[1..] == rest && part + s == part;
    } else {
      TailConcat(s, [sep] + rest);
      SplitOnOne(sep, part + [s[0]], s[1..], rest);
      MoveHead(part, s);
    }
  }

  lemma {:induction false} SplitOnFree<T>(sep: T, part: seq<T>, s: seq<T>)
    requires sep !in part
    ensures forall i :: 0 <= i < |SplitOn(sep, part, s)| ==> sep !in SplitOn(sep, part, s)[i]
    decreases |s|
  {
    if s != [] {
      if s[0] == sep { SplitOnFree(sep, [], s[1..]); } else { SplitOnFree(sep, part + [s[0]], s[1..]); }
    }
  }

  // ----- decimal numbers (strconv.FormatUint, FormatInt, ParseInt) -----

  function DigitChar(d: nat): (c: char)
    requires d < 10
  {
    "0123456789"[d]
  }

  predicate IsDigit(c: char) {
    '0' <= c <= '9'
  }

  function DigitValue(c: char): (d: nat)
    requires IsDigit(c)
    ensures d < 10 && DigitChar(d) == c
  {
    c as int - '0' as int
  }

  function FormatNat(n: nat): (s: string)
    ensures |s| > 0 && (forall i :: 0 <= i < |s| ==> IsDigit(s[i]))
    ensures ParseNat(s) == n
  {
    if n < 10 then [DigitChar(n)]
    else
      var s := FormatNat(n / 10) + [DigitChar(n % 10)];
      assert s[..|s| - 1] == FormatNat(n / 10);
      s
  }

  function ParseNat(s: string): (n: nat)
    requires forall i :: 0 <= i < |s| ==> IsDigit(s[i])
  {
    if s == "" then 0 else ParseNat(s[..|s| - 1]) * 10 + DigitValue(s[|s| - 1])
  }

  function FormatInt(n: int): (s: string)
    ensures |s| > 0
  {
    if n < 0 then "-" + FormatNat(-n) else FormatNat(n)
  }

  const MIN_INT64: int := -0x8000_0000_0000_0000
  const MAX_INT64: int := 0x7FFF_FFFF_FFFF_FFFF

  predicate AllDigits(s: string) {
    s != "" && forall i :: 0 <= i < |s| ==> IsDigit(s[i])
  }

  /** strconv.ParseInt(s, 10, 64): an optional sign, digits, and the 64-bit range. */
  function ParseInt(s: string): (r: Option<int>) {
    var signed := s != "" && (s[0] == '-' || s[0] == '+');
    var digits := if signed then s[1..] else s;
    if !AllDigits(digits) then None
    else
      var n: int := if signed && s[0] == '-' then -(ParseNat(digits) as int) else ParseNat(digits);
      if MIN_INT64 <= n <= MAX_INT64 then Some(n) else None
  }

  /** Distinct numbers have distinct decimal forms, because parsing undoes formatting. */
  lemma FormatNatInjective(m: nat, n: nat)
    requires FormatNat(m) == FormatNat(n)
    ensures m == n
  {
    assert ParseNat(FormatNat(m)) == ParseNat(FormatNat(n));
  }

  /** ParseInt reads back every formatted 64-bit integer. */
  lemma ParseFormatInt(n: int)
    requires MIN_INT64 <= n <= MAX_INT64
    ensures ParseInt(FormatInt(n)) == Some(n)
  {
    if n < 0 {
      assert FormatInt(n)[1..] == FormatNat(-n);
    } else {
      assert IsDigit(FormatNat(n)[0]);
    }
  }

  /** Two's-complement wrap-around of a 64-bit result. */
  function Wrap64(n: int): (r: int)
    ensures MIN_INT64 <= r <= MAX_INT64
    ensures MIN_INT64 <= n <= MAX_INT64 ==> r == n
    ensures (n - r) % 0x1_0000_0000_0000_0000 == 0
  {
    (n - MIN_INT64) % 0x1_0000_0000_0000_0000 + MIN_INT64
  }

  /** unicode.IsSpace, for the characters of one byte. */
  predicate IsSpace(c: char) {
    '\t' <= c <= '\r' || c == ' ' || c == '\U{0085}' || c == '\U{00A0}'
  }

  function TrimSpace(s: string): (r: string)
    decreases |s|
  {
    if s != "" && IsSpace(s[0]) then TrimSpace(s[1..])
    else if s != "" && IsSpace(s[|s| - 1]) then TrimSpace(s[..|s| - 1])
    else s
  }

  // ----- ASCII case folding (strings.ToLower, strings.EqualFold) -----

  function LowerChar(c: char): (r: char)
    ensures !('A' <= r <= 'Z')
    ensures r == c || ('a' <= r <= 'z' && r as int - 'a' as int == c as int - 'A' as int)
  {
    if 'A' <= c <= 'Z' then (c as int + 32) as char else c
  }

  function Lower(s: string): (r: string)
    ensures |r| == |s| && forall i :: 0 <= i < |s| ==> r[i] == LowerChar(s[i])
  {
    seq(|s|, i requires 0 <= i < |s| => LowerChar(s[i]))
  }

  predicate EqualFold(s: string, t: string) {
    Lower(s) == Lower(t)
  }

  // ----- byte-wise string order (Go's < on strings) -----

  predicate Less(s: string, t: string) {
    if t == "" then false
    else if s == "" then true
    else if s[0] != t[0] then s[0] < t[0]
    else Less(s[1..], t[1..])
  }

  /** Equal up to k, and smaller there. */
  predicate SmallerAt(s: string, t: string, k: nat) {
    k < |s| && k < |t| && s[..k] == t[..k] && s[k] < t[k]
  }

  /** A proper prefix, or smaller at the first difference. */
  lemma {:induction false} LessExactly(s: string, t: string)
    ensures Less(s, t) <==> (s <= t && |s| < |t|) || exists k :: SmallerAt(s, t, k)
  {
    if s != "" && t != "" {
      var a, b := s[1..], t[1..];
      LessExactly(a, b);
      if s[0] < t[0] { assert SmallerAt(s, t, 0); }
      if k: nat :| SmallerAt(a, b, k) {
        if s[0] == t[0] { assert s[..k + 1] == [s[0]] + a[..k] && t[..k + 1] == [t[0]] + b[..k]; }
        assert s[0] == t[0] ==> SmallerAt(s, t, k + 1);
      }
      if k: nat :| SmallerAt(s, t, k) {
        if k > 0 {
          assert s[0] == s[..k][0] == t[0];
          assert a[..k - 1] == s[..k][1..] && b[..k - 1] == t[..k][1..];
          assert SmallerAt(a, b, k - 1);
        }
      }
      if s[0] == t[0] { assert s <= t <==> a <= b; }
    }
  }

  lemma {:induction false} LessTotal(s: string, t: string)
    ensures Less(s, t) || s == t || Less(t, s)
    ensures !(Less(s, t) && Less(t, s))
    ensures !Less(s, s)
  {
    if s != "" {
      if t != "" && s[0] == t[0] {
        LessTotal(s[1..], t[1..]);
        assert s == [s[0]] + s[1..] && t == [t[0]] + t[1..];
      } else {
        LessTotal(s[1..], s[1..]);
      }
    }
  }

  lemma {:induction false} LessTransitive(s: string, t: string, u: string)
    requires Less(s, t) && Less(t, u)
    ensures Less(s, u)
  {
    if s != "" && s[0] == t[0] && t[0] == u[0] {
      LessTransitive(s[1..], t[1..], u[1..]);
    }
  }

  ghost predicate StrictlySorted(xs: seq<string>) {
    forall i, j :: 0 <= i < j < |xs| ==> Less(xs[i], xs[j])
  }
}
