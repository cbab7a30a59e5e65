/** The name in a DNS query: length-prefixed labels after a 12-byte header, as section
    4.1.2 of RFC 1035 lays them out. */
module DnsName {
  import opened Text

  const HEADER_LEN := 12
  const MAX_LABEL := 63
  const DOT: Byte := 46

  type Label = seq<Byte>

  ghost predicate ValidLabel(l: Label) {
    0 < |l| <= MAX_LABEL
  }

  ghost predicate ValidLabels(ls: seq<Label>) {
    forall i :: 0 <= i < |ls| ==> ValidLabel(ls[i])
  }

  // ----- specification -----

  /** The labels on the wire, without the terminating zero. */
  function Encode(ls: seq<Label>): (b: seq<Byte>)
    requires ValidLabels(ls)
  {
    if ls == [] then [] else [|ls[0]|] + ls[0] + Encode(ls[1..])
  }

  /** body starts with exactly these labels: a zero length or the end follows them. */
  ghost predicate Spells(body: seq<Byte>, ls: seq<Label>) {
    && ValidLabels(ls)
    && Encode(ls) <= body
    && (|body| > |Encode(ls)| ==> body[|Encode(ls)|] == 0)
  }

  /** The labels joined by dots. */
  ghost function Join(ls: seq<Label>): (name: seq<Byte>) {
    if |ls| <= 1 then (if ls == [] then [] else ls[0])
    else Join(ls[..|ls| - 1]) + [DOT] + ls[|ls| - 1]
  }

  /** The name of the labels body spells, and empty if it spells none. */
  ghost predicate IsNameOf(name: seq<Byte>, body: seq<Byte>) {
    && (forall ls :: Spells(body, ls) ==> name == Join(ls))
    && ((forall ls :: !Spells(body, ls)) ==> name == [])
  }

  /** What follows the header; a message no longer than its header has nothing. */
  function Body(query: seq<Byte>): (b: seq<Byte>) {
    if |query| <= HEADER_LEN then [] else query[HEADER_LEN..]
  }

  // ----- reading one label at a time -----

  datatype Next = End | Malformed | Take(text: Label, rest: seq<Byte>)

  function ReadLabel(body: seq<Byte>): (n: Next)
    ensures n.Take? ==> |n.rest| < |body| && 0 < |n.text| <= MAX_LABEL
  {
    if body == [] || body[0] == 0 then End
    else if body[0] > MAX_LABEL || 1 + body[0] > |body| then Malformed
    else Take(body[1..1 + body[0]], body[1 + body[0]..])
  }

  ghost function Scan(body: seq<Byte>): (r: Option<seq<Label>>)
    decreases |body|
  {
    match ReadLabel(body)
    case End => Some([])
    case Malformed => None
    case Take(text, rest) =>
      match Scan(rest)
      case None => None
      case Some(ls) => Some([text] + ls)
  }

  /** At most one label list is spelled, and Scan finds it. */
  lemma {:induction false} ScanExact(body: seq<Byte>, ls: seq<Label>)
    ensures Spells(body, ls) <==> Scan(body) == Some(ls)
    decreases |body|
  {
    if ls == [] {
      assert Encode(ls) == [];
    } else {
      match ReadLabel(body)
      case Take(text, rest) =>
        ScanExact(rest, ls[1..]);
        assert body == [|text|] + text + rest;
        assert ls == [ls[0]] + ls[1..];
        if text == ls[0] {
          PeelLabel(body, ls, rest);
        } else if Spells(body, ls) {
          FirstLabel(body, ls);
        }
      case _ =>
        if Spells(body, ls) { FirstLabel(body, ls); }
    }
  }

  lemma FirstLabel(body: seq<Byte>, ls: seq<Label>)
    requires ls != [] && Spells(body, ls)
    ensures ReadLabel(body) == Take(ls[0], body[1 + |ls[0]|..])
  {
    var e := Encode(ls);
    assert e[0] == |ls[0]| && e[1..1 + |ls[0]|] == ls[0];
    assert body[1..1 + |ls[0]|] == e[1..1 + |ls[0]|];
  }

  lemma PeelLabel(body: seq<Byte>, ls: seq<Label>, rest: seq<Byte>)
    requires ls != [] && ValidLabel(ls[0]) && body == [|ls[0]|] + ls[0] + rest
    ensures Spells(body, ls) <==> Spells(rest, ls[1..])
  {
    assert ls == [ls[0]] + ls[1..];
    assert ValidLabels(ls) <==> ValidLabels(ls[1..]);
    if ValidLabels(ls[1..]) {
      var e, t := Encode(ls), Encode(ls[1..]);
      var head := [|ls[0]|] + ls[0];
      assert e == head + t && body == head + rest;
      assert t <= rest <==> e <= body by {
        if e <= body { assert body[|head|..] == rest && e[|head|..] == t; }
      }
    }
  }

  // ----- the loop -----

  ghost function Dotted(name: seq<Byte>, text: Label): (r: seq<Byte>) {
    (if |name| > 0 then name + [DOT] else name) + text
  }

  method WriteLabel(name: seq<Byte>, text: Label) returns (r: seq<Byte>)
    ensures r == Dotted(name, text)
  {
    r := name;
    if |name| > 0 {
      r := r + [DOT];
    }
    r := r + text;
  }

  /** The dotted name of the labels the message spells; empty if it spells none. */
  method ParseDNSName(query: seq<Byte>) returns (name: seq<Byte>)
    ensures IsNameOf(name, Body(query))
  {
    if |query| <= HEADER_LEN {
      Found([], []);
      return [];
    }
    name := ReadLabels(query[HEADER_LEN..]);
  }

  method ReadLabels(labels: seq<Byte>) returns (name: seq<Byte>)
    ensures IsNameOf(name, labels)
  {
    name := [];
    var offset := 0;
    ghost var done: seq<Label> := [];
    ProgressStarts(labels);
    while offset < |labels|
      invariant Progress(labels, offset, name, done)
      decreases |labels| - offset
    {
      if labels[offset] == 0 { break; }
      var ok;
      ok, offset, name, done := ReadOne(labels, offset, name, done);
      if !ok { return []; }
    }
    Finish(labels, offset, name, done);
  }

  /** Reads the label at offset, unless it is too long or runs past the end. */
  method ReadOne(labels: seq<Byte>, offset: nat, name: seq<Byte>, ghost done: seq<Label>)
    returns (ok: bool, offset': nat, name': seq<Byte>, ghost done': seq<Label>)
    requires Progress(labels, offset, name, done) && offset < |labels| && labels[offset] != 0
    ensures ok ==> offset' > offset && Progress(labels, offset', name', done')
    ensures !ok ==> IsNameOf([], labels)
  {
    var length := labels[offset];
    if length > MAX_LABEL || offset + 1 + length > |labels| {
      Fail(labels, offset, name, done);
      return false, offset, name, done;
    }
    var text := labels[offset + 1..offset + 1 + length];
    Advance(labels, offset, name, done);
    name' := WriteLabel(name, text);
    return true, offset + 1 + length, name', done + [text];
  }

  /** The labels before offset are read, and their name is written. */
  ghost predicate Progress(labels: seq<Byte>, offset: nat, name: seq<Byte>, done: seq<Label>) {
    && offset <= |labels| && name == Join(done) && (name == [] <==> done == [])
    && Scan(labels) == Prepend(done, Scan(labels[offset..]))
  }

  lemma Advance(labels: seq<Byte>, offset: nat, name: seq<Byte>, done: seq<Label>)
    requires Progress(labels, offset, name, done)
    requires offset < |labels| && 0 < labels[offset] <= MAX_LABEL && offset + 1 + labels[offset] <= |labels|
    ensures
      var end := offset + 1 + labels[offset];
      Progress(labels, end, Dotted(name, labels[offset + 1..end]), done + [labels[offset + 1..end]])
  {
    var end := offset + 1 + labels[offset];
    var text := labels[offset + 1..end];
    JoinOne(done, text);
    ScanStep(labels, offset);
    PrependOne(done, text, Scan(labels[end..]));
  }

  lemma Fail(labels: seq<Byte>, offset: nat, name: seq<Byte>, done: seq<Label>)
    requires Progress(labels, offset, name, done) && offset < |labels| && labels[offset] != 0
    requires labels[offset] > MAX_LABEL || offset + 1 + labels[offset] > |labels|
    ensures IsNameOf([], labels)
  {
    ScanStops(labels, offset);
    Lost(labels);
  }

  lemma Finish(labels: seq<Byte>, offset: nat, name: seq<Byte>, done: seq<Label>)
    requires Progress(labels, offset, name, done) && (offset < |labels| ==> labels[offset] == 0)
    ensures IsNameOf(name, labels)
  {
    ScanEnds(labels, offset, done);
    Found(labels, done);
  }

  lemma Found(body: seq<Byte>, done: seq<Label>)
    requires Scan(body) == Some(done)
    ensures IsNameOf(Join(done), body)
  {
    forall ls | Spells(body, ls) ensures ls == done { ScanExact(body, ls); }
    ScanExact(body, done);
  }

  lemma Lost(body: seq<Byte>)
    requires Scan(body) == None
    ensures IsNameOf([], body)
  {
    forall ls ensures !Spells(body, ls) { ScanExact(body, ls); }
  }

  lemma ScanEnds(labels: seq<Byte>, offset: nat, done: seq<Label>)
    requires offset <= |labels| && (offset < |labels| ==> labels[offset] == 0)
    ensures Prepend(done, Scan(labels[offset..])) == Some(done)
  {
    assert done + [] == done;
  }

  lemma ProgressStarts(labels: seq<Byte>)
    ensures Progress(labels, 0, [], [])
  {
    assert labels[0..] == labels;
    if Scan(labels).Some? { assert [] + Scan(labels).value == Scan(labels).value; }
  }

  lemma ScanStops(labels: seq<Byte>, offset: nat)
    requires offset < |labels| && labels[offset] != 0
    requires labels[offset] > MAX_LABEL || offset + 1 + labels[offset] > |labels|
    ensures Scan(labels[offset..]) == None
  {
    assert labels[offset..][0] == labels[offset];
  }

  lemma ScanStep(labels: seq<Byte>, offset: nat)
    requires offset < |labels| && 0 < labels[offset] <= MAX_LABEL && offset + 1 + labels[offset] <= |labels|
    ensures
      var end := offset + 1 + labels[offset];
      Scan(labels[offset..]) == Prepend([labels[offset + 1..end]], Scan(labels[end..]))
  {
    var at, n := labels[offset..], labels[offset];
    assert at[0] == n && at[1..1 + n] == labels[offset + 1..offset + 1 + n] && at[1 + n..] == labels[offset + 1 + n..];
  }

  ghost function Prepend(done: seq<Label>, r: Option<seq<Label>>): (p: Option<seq<Label>>) {
    match r
    case None => None
    case Some(ls) => Some(done + ls)
  }

  lemma PrependOne(done: seq<Label>, l: Label, r: Option<seq<Label>>)
    ensures Prepend(done, Prepend([l], r)) == Prepend(done + [l], r)
  {
    if r.Some? { Assoc(done, [l], r.value); }
  }

  lemma JoinOne(done: seq<Label>, l: Label)
    requires Join(done) == [] <==> done == []
    ensures Join(done + [l]) == Dotted(Join(done), l)
  {
    assert (done + [l])[..|done|] == done;
  }

  // ----- consequences -----

  /** Every name that fits comes back, whatever header precedes it and whatever follows. */
  method RoundTrip(header: seq<Byte>, ls: seq<Label>, rest: seq<Byte>) returns (name: seq<Byte>)
    requires |header| == HEADER_LEN && ValidLabels(ls)
    ensures name == Join(ls)
  {
    var e := Encode(ls);
    var query := header + (e + ([0] + rest));
    assert query[HEADER_LEN..] == e + ([0] + rest);
    assert Spells(Body(query), ls);
    name := ParseDNSName(query);
    assert IsNameOf(name, Body(query));
  }

  /** Names tell label lists apart when no label holds a dot. */
  lemma {:induction false} JoinInjective(ls: seq<Label>, ms: seq<Label>)
    requires ValidLabels(ls) && ValidLabels(ms) && DotFree(ls) && DotFree(ms)
    requires Join(ls) == Join(ms)
    ensures ls == ms
    decreases |ls|
  {
    JoinEmpty(ls);
    JoinEmpty(ms);
    if ls != [] && ms != [] {
      var n, m := |ls| - 1, |ms| - 1;
      JoinDots(ls);
      JoinDots(ms);
      if n == 0 || m == 0 {
        assert n == 0 <==> DOT !in Join(ls);
        assert m == 0 <==> DOT !in Join(ms);
      } else {
        SplitLastUnique(Join(ls[..n]), ls[n], Join(ms[..m]), ms[m], DOT);
        JoinInjective(ls[..n], ms[..m]);
        assert ls == ls[..n] + [ls[n]] && ms == ms[..m] + [ms[m]];
      }
    }
  }

  ghost predicate DotFree(ls: seq<Label>) {
    forall i :: 0 <= i < |ls| ==> DOT !in ls[i]
  }

  lemma JoinEmpty(ls: seq<Label>)
    requires ValidLabels(ls)
    ensures Join(ls) == [] <==> ls == []
  {
  }

  lemma JoinDots(ls: seq<Label>)
    requires ls != [] && DotFree(ls)
    ensures DOT in Join(ls) <==> |ls| > 1
  {
    if |ls| > 1 { SeveralHoldDot(ls); }
  }

  ghost predicate InnerDot(l: Label) {
    exists k :: 0 < k < |l| - 1 && l[k] == DOT
  }

  /** The name of several labels holds a dot, with text on both sides if the labels do. */
  lemma SeveralHoldDot(ms: seq<Label>)
    requires |ms| > 1
    ensures DOT in Join(ms) && (ValidLabels(ms) ==> InnerDot(Join(ms)))
  {
    var n := |ms| - 1;
    var k := |Join(ms[..n])|;
    assert Join(ms)[k] == DOT;
    if ValidLabels(ms) { JoinEmpty(ms[..n]); }
  }

  // ----- what a name says of its labels -----

  lemma {:induction false} JoinConcat(a: seq<Label>, b: seq<Label>)
    requires a != [] && b != []
    ensures Join(a + b) == Join(a) + ([DOT] + Join(b))
    decreases |b|
  {
    var n := |b| - 1;
    assert (a + b)[..|a| + n] == a + b[..n];
    if n == 0 {
      assert a + b[..n] == a;
      Assoc(Join(a), [DOT], b[0]);
    } else {
      JoinConcat(a, b[..n]);
      var p, q := Join(a), Join(b[..n]);
      assert p + ([DOT] + q) + [DOT] + b[n] == p + ([DOT] + (q + [DOT] + b[n]));
    }
  }

  /** Blocks of labels with the same name may replace each other. */
  lemma SameBlock(a: seq<Label>, m1: seq<Label>, m2: seq<Label>, b: seq<Label>)
    requires m1 != [] && m2 != [] && Join(m1) == Join(m2)
    ensures Join(a + (m1 + b)) == Join(a + (m2 + b))
  {
    if b == [] { assert m1 + b == m1 && m2 + b == m2; } else { JoinConcat(m1, b); JoinConcat(m2, b); }
    if a == [] {
      assert a + (m1 + b) == m1 + b && a + (m2 + b) == m2 + b;
    } else {
      JoinConcat(a, m1 + b);
      JoinConcat(a, m2 + b);
    }
  }

  lemma TwoLabels(x: Label, y: Label)
    ensures Join([x, y]) == x + [DOT] + y && Join([x + [DOT] + y]) == x + [DOT] + y
  {
    assert [x, y][..1] == [x];
  }

  /** Splitting a name at its dots, as whoever reads it does. */
  function LabelsOf(name: seq<Byte>): (ls: seq<Label>) {
    if name == [] then [] else SplitOn(DOT, [], name)
  }

  lemma {:induction false} DotFreeSplits(ls: seq<Label>)
    requires ls != [] && DotFree(ls)
    ensures SplitOn(DOT, [], Join(ls)) == ls
    decreases |ls|
  {
    assert [] + ls[0] == ls[0];
    if |ls| == 1 {
      SplitOnOne(DOT, [], ls[0], []);
      assert ls == [ls[0]];
    } else {
      assert ls == [ls[0]] + ls[1..];
      JoinConcat([ls[0]], ls[1..]);
      SplitOnOne(DOT, [], ls[0], Join(ls[1..]));
      DotFreeSplits(ls[1..]);
    }
  }

  /** Splitting the name at its dots gives back the labels exactly when no label holds a dot. */
  lemma NameReadsBackExactly(ls: seq<Label>)
    requires ValidLabels(ls)
    ensures LabelsOf(Join(ls)) == ls <==> DotFree(ls)
  {
    JoinEmpty(ls);
    if ls != [] {
      if DotFree(ls) { DotFreeSplits(ls); }
      SplitOnFree(DOT, [], Join(ls));
    }
  }

  /** Some other valid list has the same name. */
  ghost predicate Ambiguous(ls: seq<Label>) {
    exists ms :: Rival(ls, ms)
  }

  ghost predicate Rival(ls: seq<Label>, ms: seq<Label>) {
    ValidLabels(ms) && ms != ls && Join(ms) == Join(ls)
  }

  lemma BlockIsValid(a: seq<Label>, m: seq<Label>, b: seq<Label>)
    ensures ValidLabels(a + (m + b)) <==> ValidLabels(a) && ValidLabels(m) && ValidLabels(b)
  {
    var ls := a + (m + b);
    forall i | 0 <= i < |a| ensures ls[i] == a[i] {}
    forall i | 0 <= i < |m| ensures ls[|a| + i] == m[i] {}
    forall i | 0 <= i < |b| ensures ls[|a| + |m| + i] == b[i] {}
  }

  /** A dot with text on both sides inside a label: the label may be two. */
  lemma InnerDotIsAmbiguous(ls: seq<Label>, i: nat, x: Label, y: Label)
    requires ValidLabels(ls) && i < |ls| && ls[i] == x + [DOT] + y && x != [] && y != []
    ensures Ambiguous(ls)
  {
    var a, b := ls[..i], ls[i + 1..];
    var ms := a + ([x, y] + b);
    assert ls == a + ([ls[i]] + b);
    TwoLabels(x, y);
    SameBlock(a, [ls[i]], [x, y], b);
    BlockIsValid(a, [ls[i]], b);
    BlockIsValid(a, [x, y], b);
    assert |ms| == |ls| + 1;
    assert Rival(ls, ms);
  }

  /** Two neighbours short enough to be one label may be one. */
  lemma ShortNeighboursAreAmbiguous(ls: seq<Label>, i: nat)
    requires ValidLabels(ls) && i + 1 < |ls| && |ls[i]| + 1 + |ls[i + 1]| <= MAX_LABEL
    ensures Ambiguous(ls)
  {
    var a, b := ls[..i], ls[i + 2..];
    var x, y := ls[i], ls[i + 1];
    var ms := a + ([x + [DOT] + y] + b);
    assert ls == a + ([x, y] + b);
    TwoLabels(x, y);
    SameBlock(a, [x, y], [x + [DOT] + y], b);
    assert |ms| == |ls| - 1;
    assert Rival(ls, ms);
  }

  ghost predicate LongNeighbours(ls: seq<Label>) {
    forall i :: 0 <= i < |ls| - 1 ==> |ls[i]| + 1 + |ls[i + 1]| > MAX_LABEL
  }

  /** The last label of a name, with or without labels before it. */
  lemma LastPart(ms: seq<Label>)
    requires ms != []
    ensures
      var n := |ms| - 1;
      Join(ms) == if n == 0 then ms[n] else Join(ms[..n]) + [DOT] + ms[n]
  {
  }

  /** A label that reaches past a dot-free last label swallows the one before it too. */
  lemma LastIsSame(before: seq<Byte>, x: Label, p: seq<Byte>, m: Label, prev: Label)
    requires DOT !in x && DOT !in prev && |prev| + 1 + |x| > MAX_LABEL && |m| <= MAX_LABEL
    requires |before| >= |prev| && before[|before| - |prev|..] == prev
    requires before + [DOT] + x == p + [DOT] + m
    ensures p == before && m == x
  {
    if |m| < |x| {
      SeparatorInLonger(p, m, before, x, DOT);
    } else if |m| > |x| {
      DotInPrevious(before, x, p, m, prev);
    } else {
      var s, t := before + [DOT] + x, p + [DOT] + m;
      assert s[..|before|] == before && t[..|p|] == p && s[|before| + 1..] == x && t[|p| + 1..] == m;
    }
  }

  lemma DotInPrevious(before: seq<Byte>, x: Label, p: seq<Byte>, m: Label, prev: Label)
    requires |x| < |m| <= |prev| + |x| && |before| >= |prev| && before[|before| - |prev|..] == prev
    requires before + [DOT] + x == p + [DOT] + m
    ensures DOT in prev
  {
    var s, t, k := before + [DOT] + x, p + [DOT] + m, |p| - (|before| - |prev|);
    assert t[|p|] == DOT && s[|p|] == before[|p|] == prev[k];
  }

  lemma NameEndsWithLast(ls: seq<Label>)
    requires ls != []
    ensures |Join(ls)| >= |ls[|ls| - 1]| && Join(ls)[|Join(ls)| - |ls[|ls| - 1]|..] == ls[|ls| - 1]
  {
  }

  /** Dot-free labels with long neighbours: no other valid list has the name. */
  lemma {:induction false} LongNeighboursAreNamed(ls: seq<Label>, ms: seq<Label>)
    requires ValidLabels(ls) && ValidLabels(ms) && DotFree(ls) && LongNeighbours(ls) && Join(ls) == Join(ms)
    ensures ls == ms
    decreases |ls|
  {
    JoinEmpty(ls);
    JoinEmpty(ms);
    if ls != [] && ms != [] {
      var n, m := |ls| - 1, |ms| - 1;
      LastPart(ls);
      LastPart(ms);
      if n == 0 {
        DotFreeIsOne(ls[0], ms);
      } else {
        LongName(ls);
        assert m > 0;
        NameEndsWithLast(ls[..n]);
        assert ls[..n][n - 1] == ls[n - 1];
        LastIsSame(Join(ls[..n]), ls[n], Join(ms[..m]), ms[m], ls[n - 1]);
        LongNeighboursAreNamed(ls[..n], ms[..m]);
        InitLast(ls);
        InitLast(ms);
      }
    }
  }

  lemma LongName(ls: seq<Label>)
    requires |ls| >= 2 && LongNeighbours(ls)
    ensures |Join(ls)| > MAX_LABEL
  {
    var n := |ls| - 1;
    NameEndsWithLast(ls[..n]);
    assert ls[..n][n - 1] == ls[n - 1];
    assert |ls[n - 1]| + 1 + |ls[n - 1 + 1]| > MAX_LABEL;
  }

  lemma DotFreeIsOne(l: Label, ms: seq<Label>)
    requires ms != [] && Join(ms) == l && DOT !in l
    ensures ms == [l]
  {
    if |ms| > 1 { SeveralHoldDot(ms); }
  }

  /** A list of dot-free labels is the only valid list with its name exactly when no two
      neighbours are short enough to be one label. */
  lemma DotFreeIsNamedExactly(ls: seq<Label>)
    requires ValidLabels(ls) && DotFree(ls)
    ensures !Ambiguous(ls) <==> LongNeighbours(ls)
  {
    if LongNeighbours(ls) {
      forall ms ensures !Rival(ls, ms) {
        if Rival(ls, ms) { LongNeighboursAreNamed(ls, ms); }
      }
    } else {
      var i :| 0 <= i < |ls| - 1 && |ls[i]| + 1 + |ls[i + 1]| <= MAX_LABEL;
      ShortNeighboursAreAmbiguous(ls, i);
    }
  }

  /** A lone label is the only valid list with its name exactly when it holds no dot but at its
      ends. */
  lemma LoneLabelIsNamedExactly(l: Label)
    requires ValidLabel(l)
    ensures !Ambiguous([l]) <==> !InnerDot(l)
  {
    if k :| 0 < k < |l| - 1 && l[k] == DOT {
      assert l == l[..k] + [DOT] + l[k + 1..];
      InnerDotIsAmbiguous([l], 0, l[..k], l[k + 1..]);
    } else {
      forall ms ensures !Rival([l], ms) {
        if Rival([l], ms) { EdgeDotsOnly(l, ms); }
      }
    }
  }

  lemma EdgeDotsOnly(l: Label, ms: seq<Label>)
    requires ValidLabels(ms) && Join(ms) == l && l != [] && !InnerDot(l)
    ensures ms == [l]
  {
    JoinEmpty(ms);
    if |ms| > 1 { SeveralHoldDot(ms); }
  }

  /** A dot inside a label is indistinguishable from one between labels. */
  lemma DottedLabelIsAmbiguous()
    ensures
      var ls, ms := [[97, DOT, 98]], [[97], [98]];
      ValidLabels(ls) && ValidLabels(ms) && ls != ms && Join(ls) == Join(ms)
  {
    var ms: seq<Label> := [[97], [98]];
    assert ms[..1] == [[97]];
    assert Join(ms) == Join([[97]]) + [DOT] + [98];
  }

  // ----- any list of labels -----

  /** The name can be cut at dots into valid labels. */
  predicate Readable(name: seq<Byte>) {
    || 0 < |name| <= MAX_LABEL
    || exists i :: 0 <= i < |name| - 1 && |name| - 1 - i <= MAX_LABEL && name[i] == DOT && Readable(name[..i])
  }

  /** What follows position i may be the last label; at -1 that is the whole name. */
  predicate MayCut(name: seq<Byte>, i: int) {
    && -1 <= i < |name| - 1 && |name| - 1 - i <= MAX_LABEL
    && (i >= 0 ==> name[i] == DOT && Readable(name[..i]))
  }

  lemma CutToRead(name: seq<Byte>)
    ensures Readable(name) <==> exists i :: MayCut(name, i)
  {
    if 0 < |name| <= MAX_LABEL { assert MayCut(name, -1); }
    if i :| 0 <= i < |name| - 1 && |name| - 1 - i <= MAX_LABEL && name[i] == DOT && Readable(name[..i]) {
      assert MayCut(name, i);
    }
  }

  function LastCut(name: seq<Byte>, from: int): (i: int)
    requires exists j :: -1 <= j <= from && MayCut(name, j)
    ensures MayCut(name, i) && forall j :: i < j <= from ==> !MayCut(name, j)
    decreases from + 1
  {
    if MayCut(name, from) then from else LastCut(name, from - 1)
  }

  function FirstCut(name: seq<Byte>, from: int): (i: int)
    requires exists j :: from <= j < |name| && MayCut(name, j)
    ensures MayCut(name, i) && forall j :: from <= j < i ==> !MayCut(name, j)
    decreases |name| - from
  {
    if MayCut(name, from) then from else FirstCut(name, from + 1)
  }

  /** The cut that makes the last label as long, or as short, as can be. */
  function Cut(name: seq<Byte>, longest: bool): (i: int)
    requires Readable(name)
    ensures MayCut(name, i) && forall j :: MayCut(name, j) ==> if longest then i <= j else j <= i
  {
    CutToRead(name);
    if longest then FirstCut(name, -1) else LastCut(name, |name|)
  }

  /** The labels of a name, read from its end, each as long or as short as can be. */
  function Reading(name: seq<Byte>, longest: bool): (ls: seq<Label>)
    requires Readable(name)
    decreases |name|
  {
    var i := Cut(name, longest);
    if i == -1 then [name] else Reading(name[..i], longest) + [name[i + 1..]]
  }

  lemma {:induction false} ReadingIsOfName(name: seq<Byte>, longest: bool)
    requires Readable(name)
    ensures ValidLabels(Reading(name, longest)) && Join(Reading(name, longest)) == name
    ensures Reading(name, longest) != [] && |Last(Reading(name, longest))| == |name| - 1 - Cut(name, longest)
    decreases |name|
  {
    var i := Cut(name, longest);
    if i >= 0 {
      var before, last := Reading(name[..i], longest), name[i + 1..];
      ReadingIsOfName(name[..i], longest);
      JoinSnoc(before, last);
      assert name == name[..i] + [DOT] + last;
      assert Reading(name, longest) == before + [last];
    }
  }

  lemma JoinSnoc(ls: seq<Label>, l: Label)
    requires ls != []
    ensures Join(ls + [l]) == Join(ls) + [DOT] + l
  {
    assert (ls + [l])[..|ls|] == ls;
  }

  lemma {:induction false} ListIsReading(ms: seq<Label>)
    requires ms != [] && ValidLabels(ms)
    ensures MayCut(Join(ms), |Join(ms)| - 1 - |Last(ms)|) && Readable(Join(ms))
    decreases |ms|
  {
    var n, name := |ms| - 1, Join(ms);
    LastPart(ms);
    if n > 0 {
      ListIsReading(ms[..n]);
      assert name[..|name| - 1 - |ms[n]|] == Join(ms[..n]);
    }
    CutToRead(name);
  }

  /** One way of reading the name, from whichever end of the choices one begins. */
  predicate OneReading(name: seq<Byte>) {
    Readable(name) ==> Reading(name, false) == Reading(name, true)
  }

  lemma SameCut(ms: seq<Label>)
    requires ms != [] && ValidLabels(ms) && Readable(Join(ms)) && OneReading(Join(ms))
    ensures Cut(Join(ms), false) == Cut(Join(ms), true) == |Join(ms)| - 1 - |Last(ms)|
  {
    ListIsReading(ms);
    ReadingIsOfName(Join(ms), false);
    ReadingIsOfName(Join(ms), true);
  }

  lemma {:induction false} OnlyReading(ms: seq<Label>)
    requires ms != [] && ValidLabels(ms) && Readable(Join(ms)) && OneReading(Join(ms))
    ensures ms == Reading(Join(ms), false)
    decreases |ms|
  {
    var n, name := |ms| - 1, Join(ms);
    SameCut(ms);
    LastPart(ms);
    if n > 0 {
      ListIsReading(ms[..n]);
      var i := |name| - 1 - |ms[n]|;
      assert name[..i] == Join(ms[..n]) && name[i + 1..] == ms[n];
      SameInit(Reading(name[..i], false), Reading(name[..i], true), ms[n]);
      OnlyReading(ms[..n]);
      InitLast(ms);
    }
  }

  lemma SameInit<T>(a: seq<T>, b: seq<T>, x: T)
    ensures a + [x] == b + [x] <==> a == b
  {
    assert (a + [x])[..|a|] == a && (b + [x])[..|b|] == b;
  }

  /** A list is the only valid one with its name exactly when reading the name from its end
      with the shortest labels and with the longest gives the same. */
  lemma NamedExactly(ls: seq<Label>)
    requires ValidLabels(ls)
    ensures !Ambiguous(ls) <==> OneReading(Join(ls))
  {
    JoinEmpty(ls);
    if ls == [] {
      forall ms ensures !Rival(ls, ms) { if ValidLabels(ms) { JoinEmpty(ms); } }
    } else {
      ListIsReading(ls);
      if OneReading(Join(ls)) {
        forall ms ensures !Rival(ls, ms) {
          if ValidLabels(ms) && Join(ms) == Join(ls) {
            JoinEmpty(ms);
            OnlyReading(ls);
            OnlyReading(ms);
          }
        }
      } else {
        ReadingIsOfName(Join(ls), false);
        ReadingIsOfName(Join(ls), true);
        var a, b := Reading(Join(ls), false), Reading(Join(ls), true);
        assert Rival(ls, a) || Rival(ls, b);
      }
    }
  }
}
