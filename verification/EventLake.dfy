/** The event lake: the in-memory store and the SQL statements of its SQLite twin. A stored
    event carries the number of its append, which is its identity in memory and its seq
    column in SQL. */
module EventLake {
  import opened Text
  import opened Model

  const DEFAULT_LIMIT := 1000

  datatype Stored = Stored(number: nat, event: Event)

  datatype Query = Query(
    action: string, host: string, pid: Uint32, since: Option<int>, until: Option<int>,
    contains: string, limit: int, ascending: bool)

  function Limit(q: Query): (n: nat)
    ensures n > 0
  {
    if q.limit <= 0 then DEFAULT_LIMIT else q.limit
  }

  function SearchText(e: Event): (s: string) {
    Lower(Join([e.process.name, e.process.executable, e.process.commandLine, e.file.path, e.file.target,
                e.network.dstIP, e.network.domain, e.host], " "))
  }

  predicate Matches(q: Query, e: Event) {
    if q.action != "" && e.action != q.action then false
    else if q.host != "" && e.host != q.host then false
    else if q.pid != 0 && e.process.pid != q.pid then false
    else if q.since.Some? && e.timestamp < q.since.value then false
    else if q.until.Some? && e.timestamp > q.until.value then false
    else !(q.contains != "" && !Contains(SearchText(e), Lower(q.contains)))
  }

  // ----- the rendered WHERE clause -----

  datatype Cond =
    | ActionIs(text: string) | HostIs(text: string) | PidIs(pid: Uint32)
    | TsAtLeast(ts: int) | TsAtMost(ts: int) | SearchLike(pattern: string)

  function When(given: bool, c: Cond): (cs: seq<Cond>) {
    if given then [c] else []
  }

  function TextConds(q: Query): (cs: seq<Cond>) {
    When(q.action != "", ActionIs(q.action)) + When(q.host != "", HostIs(q.host))
  }

  function TimeConds(q: Query): (cs: seq<Cond>) {
    When(q.since.Some?, TsAtLeast(if q.since.Some? then q.since.value else 0))
    + When(q.until.Some?, TsAtMost(if q.until.Some? then q.until.value else 0))
  }

  /** The conditions, in the order they are added. */
  function Conds(q: Query): (cs: seq<Cond>) {
    TextConds(q) + (When(q.pid != 0, PidIs(q.pid))
    + (TimeConds(q) + When(q.contains != "", SearchLike("%" + (Lower(q.contains) + "%")))))
  }

  /** SQLite's LIKE without an escape: `%` any text, `_` any character, letters without case. */
  predicate Like(s: string, pattern: string)
    decreases |s| + |pattern|
  {
    if pattern == "" then s == ""
    else if pattern[0] == '%' then Like(s, pattern[1..]) || (s != "" && Like(s[1..], pattern))
    else s != "" && (pattern[0] == '_' || LowerChar(s[0]) == LowerChar(pattern[0])) && Like(s[1..], pattern[1..])
  }

  /** A condition on the columns written for an event. */
  predicate Holds(c: Cond, e: Event) {
    match c
    case ActionIs(text) => e.action == text
    case HostIs(text) => e.host == text
    case PidIs(pid) => e.process.pid == pid
    case TsAtLeast(ts) => e.timestamp >= ts
    case TsAtMost(ts) => e.timestamp <= ts
    case SearchLike(pattern) => Like(SearchText(e), pattern)
  }

  ghost predicate AllHold(cs: seq<Cond>, e: Event) {
    forall i :: 0 <= i < |cs| ==> Holds(cs[i], e)
  }

  ghost predicate Where(q: Query, e: Event) {
    AllHold(Conds(q), e)
  }

  // ----- LIKE against substring search -----

  predicate IsWildcard(c: char) {
    c == '%' || c == '_'
  }

  ghost predicate NoWildcard(s: string) {
    forall i :: 0 <= i < |s| ==> !IsWildcard(s[i])
  }

  ghost predicate IsLower(s: string) {
    forall i :: 0 <= i < |s| ==> LowerChar(s[i]) == s[i]
  }

  lemma LowerIsLower(s: string)
    ensures IsLower(Lower(s)) && (NoWildcard(Lower(s)) <==> NoWildcard(s))
  {
    forall i | 0 <= i < |s| ensures IsWildcard(Lower(s)[i]) <==> IsWildcard(s[i]) {
    }
  }

  lemma {:induction false} PercentTakesAll(s: string)
    ensures Like(s, "%")
  {
    if s != "" { PercentTakesAll(s[1..]); }
  }

  /** A leading `%` searches for a place to go on. */
  lemma {:induction false} PercentSearches(s: string, p: string)
    ensures Like(s, "%" + p) <==> exists i :: 0 <= i <= |s| && Like(s[i..], p)
  {
    assert ("%" + p)[1..] == p;
    assert s[0..] == s;
    if s != "" {
      PercentSearches(s[1..], p);
      forall i | 0 <= i <= |s| - 1 ensures s[1..][i..] == s[i + 1..] {
      }
      if exists i :: 0 <= i <= |s| && Like(s[i..], p) {
        var i :| 0 <= i <= |s| && Like(s[i..], p);
        if i > 0 { assert s[1..][i - 1..] == s[i..]; }
      }
    }
  }

  /** Literal text, then anything: a prefix test when no wildcard occurs. */
  lemma {:induction false} LikePrefix(s: string, c: string)
    requires IsLower(s) && IsLower(c)
    ensures c <= s ==> Like(s, c + "%")
    ensures NoWildcard(c) && Like(s, c + "%") ==> c <= s
  {
    if c == "" {
      assert c + "%" == "%";
      PercentTakesAll(s);
    } else {
      assert (c + "%")[1..] == c[1..] + "%" && (c + "%")[0] == c[0];
      if s != "" {
        LikePrefix(s[1..], c[1..]);
        assert s == [s[0]] + s[1..] && c == [c[0]] + c[1..];
        if c <= s { PercentAlso(s, c); }
      }
    }
  }

  lemma PercentAlso(s: string, c: string)
    requires s != "" && c != "" && s[0] == c[0] && Like(s[1..], c[1..] + "%")
    ensures Like(s, c + "%")
  {
    var p := c + "%";
    assert p[1..] == c[1..] + "%" && p[0] == c[0];
    if c[0] == '%' {
      PercentMore(s[1..], p);
    }
  }

  lemma PercentMore(s: string, p: string)
    requires p != "" && p[0] == '%' && Like(s, p[1..])
    ensures Like(s, p)
  {
  }

  /** The text a pattern's wildcards become when each stands for one `x`. */
  function Neutral(c: string): (s: string)
    ensures |s| == |c| && forall i :: 0 <= i < |c| ==> s[i] == (if IsWildcard(c[i]) then 'x' else c[i])
  {
    seq(|c|, i requires 0 <= i < |c| => if IsWildcard(c[i]) then 'x' else c[i])
  }

  lemma {:induction false} NeutralIsLike(c: string)
    ensures Like(Neutral(c), c + "%")
  {
    var s, p := Neutral(c), c + "%";
    if c == "" {
      assert p == "%";
      PercentTakesAll(s);
    } else {
      NeutralIsLike(c[1..]);
      assert s[1..] == Neutral(c[1..]) && p[1..] == c[1..] + "%" && p[0] == c[0];
      if c[0] == '%' { PercentMore(s[1..], p); }
    }
  }

  /** LIKE finds whatever a substring search finds. */
  lemma ContainsIsLike(t: string, c: string)
    requires IsLower(t) && IsLower(c) && Contains(t, c)
    ensures Like(t, "%" + (c + "%"))
  {
    var i :| 0 <= i <= |t| && c <= t[i..];
    LikePrefix(t[i..], c);
    PercentSearches(t, c + "%");
  }

  lemma LikeContains(t: string, c: string)
    requires IsLower(t) && IsLower(c) && NoWildcard(c) && Like(t, "%" + (c + "%"))
    ensures Contains(t, c)
  {
    PercentSearches(t, c + "%");
    var i :| 0 <= i <= |t| && Like(t[i..], c + "%");
    LikePrefix(t[i..], c);
  }

  lemma WildcardOvermatches(c: string)
    requires IsLower(c) && !NoWildcard(c)
    ensures IsLower(Neutral(c)) && Like(Neutral(c), "%" + (c + "%")) && !Contains(Neutral(c), c)
  {
    var t := Neutral(c);
    assert t[0..] == t;
    NeutralIsLike(c);
    PercentSearches(t, c + "%");
    var k :| 0 <= k < |c| && IsWildcard(c[k]);
    forall i | 0 <= i <= |t| ensures !(c <= t[i..]) {
      if i + |c| <= |t| { assert t[i..][k] == t[i + k] && !IsWildcard(t[i + k]); }
    }
  }

  /** The SQL search agrees with the substring search on every text exactly when the
      searched-for text holds no wildcard. */
  lemma LikeIsContains(c: string)
    requires IsLower(c)
    ensures NoWildcard(c) <==>
      forall t :: IsLower(t) ==> (Like(t, "%" + (c + "%")) <==> Contains(t, c))
  {
    if NoWildcard(c) {
      forall t | IsLower(t) ensures Like(t, "%" + (c + "%")) <==> Contains(t, c) {
        if Contains(t, c) { ContainsIsLike(t, c); }
        if Like(t, "%" + (c + "%")) { LikeContains(t, c); }
      }
    } else {
      WildcardOvermatches(c);
    }
  }

  // ----- the two filters -----

  lemma WhereParts(q: Query, e: Event)
    ensures Where(q, e) <==>
      && (q.action != "" ==> e.action == q.action) && (q.host != "" ==> e.host == q.host)
      && (q.pid != 0 ==> e.process.pid == q.pid)
      && (q.since.Some? ==> e.timestamp >= q.since.value) && (q.until.Some? ==> e.timestamp <= q.until.value)
      && (q.contains != "" ==> Like(SearchText(e), "%" + (Lower(q.contains) + "%")))
  {
    var pid := When(q.pid != 0, PidIs(q.pid));
    var like := When(q.contains != "", SearchLike("%" + (Lower(q.contains) + "%")));
    AllHoldConcat(TextConds(q), pid + (TimeConds(q) + like), e);
    AllHoldConcat(pid, TimeConds(q) + like, e);
    AllHoldConcat(TimeConds(q), like, e);
    WhenHolds(q.pid != 0, PidIs(q.pid), e);
    WhenHolds(q.contains != "", SearchLike("%" + (Lower(q.contains) + "%")), e);
    TextPart(q, e);
    TimePart(q, e);
  }

  lemma WhenHolds(given: bool, c: Cond, e: Event)
    ensures AllHold(When(given, c), e) <==> (given ==> Holds(c, e))
  {
    if given { assert When(given, c)[0] == c; }
  }

  lemma AllHoldConcat(a: seq<Cond>, b: seq<Cond>, e: Event)
    ensures AllHold(a + b, e) <==> AllHold(a, e) && AllHold(b, e)
  {
    if AllHold(a + b, e) {
      forall i | 0 <= i < |a| ensures Holds(a[i], e) { assert (a + b)[i] == a[i]; }
      forall i | 0 <= i < |b| ensures Holds(b[i], e) { assert (a + b)[|a| + i] == b[i]; }
    }
  }

  lemma TextPart(q: Query, e: Event)
    ensures AllHold(TextConds(q), e) <==>
      (q.action != "" ==> e.action == q.action) && (q.host != "" ==> e.host == q.host)
  {
    AllHoldConcat(When(q.action != "", ActionIs(q.action)), When(q.host != "", HostIs(q.host)), e);
    WhenHolds(q.action != "", ActionIs(q.action), e);
    WhenHolds(q.host != "", HostIs(q.host), e);
  }

  lemma TimePart(q: Query, e: Event)
    ensures AllHold(TimeConds(q), e) <==>
      && (q.since.Some? ==> e.timestamp >= q.since.value)
      && (q.until.Some? ==> e.timestamp <= q.until.value)
  {
    var since := TsAtLeast(if q.since.Some? then q.since.value else 0);
    var until := TsAtMost(if q.until.Some? then q.until.value else 0);
    AllHoldConcat(When(q.since.Some?, since), When(q.until.Some?, until), e);
    WhenHolds(q.since.Some?, since, e);
    WhenHolds(q.until.Some?, until, e);
  }

  /** SQL selects every event memory selects, and no other when Contains holds no wildcard. */
  lemma FiltersAgree(q: Query, e: Event)
    ensures Matches(q, e) ==> Where(q, e)
    ensures NoWildcard(q.contains) ==> (Matches(q, e) <==> Where(q, e))
  {
    WhereParts(q, e);
    var t, c := SearchText(e), Lower(q.contains);
    LowerIsLower(q.contains);
    SearchIsLower(e);
    if Contains(t, c) { ContainsIsLike(t, c); }
    if NoWildcard(c) && Like(t, "%" + (c + "%")) { LikeContains(t, c); }
  }

  lemma SearchIsLower(e: Event)
    ensures IsLower(SearchText(e))
  {
    LowerIsLower(Join([e.process.name, e.process.executable, e.process.commandLine, e.file.path, e.file.target,
                       e.network.dstIP, e.network.domain, e.host], " "));
  }

  // ----- on which queries the two filters agree -----

  lemma LowerConcat(a: string, b: string)
    ensures Lower(a + b) == Lower(a) + Lower(b)
  {
  }

  lemma LowerFixed(s: string)
    requires IsLower(s)
    ensures Lower(s) == s
  {
  }

  lemma JoinCons(p: string, rest: seq<string>)
    requires rest != []
    ensures Join([p] + rest, " ") == p + (" " + Join(rest, " "))
  {
    assert ([p] + rest)[1..] == rest;
    Assoc(p, " ", Join(rest, " "));
  }

  // ----- what a search finds -----

  /** A text without a space is found on one side of a space or on the other. */
  lemma FoundOnOneSide(a: string, b: string, c: string)
    ensures Contains(a, c) || Contains(b, c) ==> Contains(a + (" " + b), c)
    ensures ' ' !in c && Contains(a + (" " + b), c) ==> Contains(a, c) || Contains(b, c)
  {
    var s := a + (" " + b);
    if ' ' !in c && Contains(s, c) {
      var i :| 0 <= i <= |s| && c <= s[i..];
      if i <= |a| {
        SpaceAfter(a, b, c, i);
      } else {
        assert s[i..] == b[i - |a| - 1..];
      }
    }
    if i :| 0 <= i <= |a| && c <= a[i..] { assert s[i..] == a[i..] + (" " + b); }
    if i :| 0 <= i <= |b| && c <= b[i..] { assert s[|a| + 1 + i..] == b[i..]; }
  }

  lemma SpaceAfter(a: string, b: string, c: string, i: nat)
    requires ' ' !in c && i <= |a| && c <= (a + (" " + b))[i..]
    ensures c <= a[i..]
  {
    var s := a + (" " + b);
    assert s[|a|] == ' ';
    assert forall k :: 0 <= k < |c| ==> c[k] == s[i..][k] == a[i..][k];
  }

  ghost predicate InOne(parts: seq<string>, c: string) {
    exists k :: 0 <= k < |parts| && Contains(Lower(parts[k]), c)
  }

  lemma {:induction false} FoundInOne(parts: seq<string>, c: string)
    requires parts != []
    ensures InOne(parts, c) ==> Contains(Lower(Join(parts, " ")), c)
    ensures ' ' !in c && Contains(Lower(Join(parts, " ")), c) ==> InOne(parts, c)
  {
    var rest := parts[1..];
    if rest == [] {
      assert parts == [parts[0]];
    } else {
      FoundInOne(rest, c);
      assert parts == [parts[0]] + rest;
      JoinCons(parts[0], rest);
      LowerConcat(parts[0], " " + Join(rest, " "));
      LowerConcat(" ", Join(rest, " "));
      assert Lower(" ") == " ";
      FoundOnOneSide(Lower(parts[0]), Lower(Join(rest, " ")), c);
      if k :| 0 <= k < |rest| && Contains(Lower(rest[k]), c) { assert parts[k + 1] == rest[k]; }
      if k :| 0 <= k < |parts| && Contains(Lower(parts[k]), c) { assert k > 0 ==> rest[k - 1] == parts[k]; }
    }
  }

  /** The text is in one of the searched fields, in any case. */
  ghost predicate InSomeField(e: Event, c: string) {
    || Contains(Lower(e.process.name), c) || Contains(Lower(e.process.executable), c)
    || Contains(Lower(e.process.commandLine), c) || Contains(Lower(e.file.path), c) || Contains(Lower(e.file.target), c)
    || Contains(Lower(e.network.dstIP), c) || Contains(Lower(e.network.domain), c) || Contains(Lower(e.host), c)
  }

  /** A search finds every event with a searched field that holds the text. Only a text with a
      space may be found in no field: it may begin in one and end in the next. */
  lemma SearchFinds(e: Event, text: string)
    ensures InSomeField(e, Lower(text)) ==> Contains(SearchText(e), Lower(text))
    ensures ' ' !in text && Contains(SearchText(e), Lower(text)) ==> InSomeField(e, Lower(text))
  {
    var c := Lower(text);
    assert ' ' !in text ==> forall i :: 0 <= i < |c| ==> c[i] == LowerChar(text[i]) != ' ';
    var parts := [e.process.name, e.process.executable, e.process.commandLine, e.file.path, e.file.target,
                  e.network.dstIP, e.network.domain, e.host];
    FoundInOne(parts, c);
    EightParts(parts, c);
  }

  lemma EightParts(ps: seq<string>, c: string)
    requires |ps| == 8
    ensures InOne(ps, c) <==>
      || Contains(Lower(ps[0]), c) || Contains(Lower(ps[1]), c) || Contains(Lower(ps[2]), c)
      || Contains(Lower(ps[3]), c) || Contains(Lower(ps[4]), c) || Contains(Lower(ps[5]), c)
      || Contains(Lower(ps[6]), c) || Contains(Lower(ps[7]), c)
  {
  }

  /** The host comes last, after a space. */
  lemma SearchEndsWithHost(e: Event) returns (before: string)
    ensures SearchText(e) == before + (" " + Lower(e.host))
  {
    var parts := [e.process.name, e.process.executable, e.process.commandLine, e.file.path, e.file.target,
                  e.network.dstIP, e.network.domain];
    var text := JoinSnoc(parts, e.host);
    assert parts + [e.host] == [e.process.name, e.process.executable, e.process.commandLine, e.file.path, e.file.target,
                                e.network.dstIP, e.network.domain, e.host];
    before := Lower(text);
    LowerConcat(text, " " + e.host);
    LowerConcat(" ", e.host);
    assert Lower(" ") == " ";
  }

  lemma {:induction false} JoinSnoc(parts: seq<string>, last: string) returns (text: string)
    requires parts != []
    ensures Join(parts + [last], " ") == text + (" " + last)
    decreases |parts|
  {
    if |parts| == 1 {
      text := parts[0];
      assert parts + [last] == [parts[0]] + [last];
      JoinCons(parts[0], [last]);
    } else {
      var more := JoinSnoc(parts[1..], last);
      assert parts + [last] == [parts[0]] + (parts[1..] + [last]);
      JoinCons(parts[0], parts[1..] + [last]);
      text := parts[0] + (" " + more);
      Assoc(" ", more, " " + last);
      Assoc(parts[0], " " + more, " " + last);
    }
  }

  ghost predicate EmptyRange(q: Query) {
    q.since.Some? && q.until.Some? && q.since.value > q.until.value
  }

  /** The searched-for text occurs in the host the query asks for, or in the space before it. */
  ghost predicate HostHolds(q: Query) {
    Contains(" " + Lower(q.host), Lower(q.contains))
  }

  /** An event that meets every other condition of the query, with this name and domain. */
  function EventFor(q: Query, name: string, domain: string): (e: Event) {
    EMPTY_EVENT.(
      timestamp := if q.since.Some? then q.since.value else if q.until.Some? then q.until.value else 0,
      action := q.action, host := q.host,
      process := EMPTY_EVENT.process.(pid := q.pid, name := name),
      network := EMPTY_EVENT.network.(domain := domain))
  }

  lemma EventForMeets(q: Query, name: string, domain: string)
    requires !EmptyRange(q)
    ensures
      var e, c := EventFor(q, name, domain), Lower(q.contains);
      && (Matches(q, e) <==> (q.contains != "" ==> Contains(SearchText(e), c)))
      && (Where(q, e) <==> (q.contains != "" ==> Like(SearchText(e), "%" + (c + "%"))))
  {
    WhereParts(q, EventFor(q, name, domain));
  }

  function Spaces(n: nat): (s: string)
    ensures |s| == n && forall i :: 0 <= i < n ==> s[i] == ' '
  {
    seq(n, _ => ' ')
  }

  function Empties(n: nat): (parts: seq<string>)
    ensures |parts| == n && forall i :: 0 <= i < n ==> parts[i] == ""
  {
    seq(n, _ => "")
  }

  /** Empty parts add one space each. */
  lemma {:induction false} JoinEmpties(n: nat, rest: seq<string>)
    requires rest != []
    ensures Join(Empties(n) + rest, " ") == Spaces(n) + Join(rest, " ")
  {
    if n == 0 {
      assert Empties(n) + rest == rest && Spaces(n) == "";
    } else {
      JoinEmpties(n - 1, rest);
      assert Empties(n) + rest == [""] + (Empties(n - 1) + rest);
      JoinCons("", Empties(n - 1) + rest);
      assert Spaces(n) == " " + Spaces(n - 1);
      Assoc(" ", Spaces(n - 1), Join(rest, " "));
    }
  }

  lemma EmptyParts(name: string, domain: string, host: string)
    ensures Join([name, "", "", "", "", "", domain, host], " ") == name + (Spaces(6) + (domain + (" " + host)))
  {
    JoinCons(domain, [host]);
    assert [domain] + [host] == [domain, host];
    JoinEmpties(5, [domain, host]);
    var rest := Empties(5) + [domain, host];
    JoinCons(name, rest);
    assert [name] + rest == [name, "", "", "", "", "", domain, host];
    assert Spaces(6) == " " + Spaces(5);
    Assoc(" ", Spaces(5), domain + (" " + host));
  }

  lemma EventForText(q: Query, name: string, domain: string)
    requires IsLower(name) && IsLower(domain)
    ensures SearchText(EventFor(q, name, domain)) == name + (Spaces(6) + (domain + (" " + Lower(q.host))))
  {
    var h := q.host;
    EmptyParts(name, domain, h);
    LowerConcat(name, Spaces(6) + (domain + (" " + h)));
    LowerConcat(Spaces(6), domain + (" " + h));
    LowerConcat(domain, " " + h);
    LowerConcat(" ", h);
    LowerFixed(name);
    LowerFixed(domain);
    LowerFixed(" ");
    LowerFixed(Spaces(6));
  }

  function Repeat(ch: char, n: nat): (s: string)
    ensures |s| == n && forall i :: 0 <= i < n ==> s[i] == ch
  {
    seq(n, _ => ch)
  }

  /** A wildcard text occurs in nothing before the host when none of that holds a wildcard and
      what precedes the host does not start like it. */
  lemma NotBeforeHost(before: string, d: char, end: string, c: string)
    requires !NoWildcard(c) && NoWildcard(before) && !IsWildcard(d) && d != c[0] && !Contains(" " + end, c)
    ensures !Contains(before + (Repeat(d, |c|) + (" " + end)), c)
  {
    var pad := Repeat(d, |c|);
    var t := before + (pad + (" " + end));
    var p := |before| + |pad|;
    assert t[p..] == " " + end;
    forall i | 0 <= i <= |t| ensures !(c <= t[i..]) {
      if i >= p {
        assert t[i..] == (" " + end)[i - p..];
      } else if i >= |before| {
        assert t[i..][0] == t[i] == d;
      } else if i + |c| <= |t| {
        var k :| 0 <= k < |c| && IsWildcard(c[k]);
        assert t[i..][k] == t[i + k];
        assert i + k < |before| ==> t[i + k] == before[i + k];
        assert i + k >= |before| ==> t[i + k] == d;
      }
    }
  }

  lemma PrefixIsLike(name: string, rest: string, c: string)
    requires Like(name, c + "%")
    ensures Like(name + rest, "%" + (c + "%"))
  {
    LikeMore(name, rest, c);
    PercentSearches(name + rest, c + "%");
    assert (name + rest)[0..] == name + rest;
  }

  /** A pattern that ends in `%` takes more text. */
  lemma {:induction false} LikeMore(s: string, rest: string, c: string)
    requires Like(s, c + "%")
    ensures Like(s + rest, c + "%")
    decreases |s| + |c|
  {
    var p := c + "%";
    if c == "" {
      assert p == "%";
      PercentTakesAll(s + rest);
    } else {
      assert p[1..] == c[1..] + "%" && p[0] == c[0];
      if c[0] == '%' {
        if Like(s, p[1..]) {
          LikeMore(s, rest, c[1..]);
          PercentMore(s + rest, p);
        } else {
          LikeMore(s[1..], rest, c);
          TailConcat(s, rest);
        }
      } else {
        LikeMore(s[1..], rest, c[1..]);
        TailConcat(s, rest);
      }
    }
  }

  /** The event on which a wildcard query differs: SQL selects it and memory does not. */
  function Overmatched(q: Query): (e: Event) {
    EventFor(q, Neutral(Lower(q.contains)), Pad(Lower(q.contains)))
  }

  function Pad(c: string): (s: string) {
    Repeat(if c != "" && c[0] == 'x' then 'y' else 'x', |c|)
  }

  lemma OvermatchText(c: string, h: string)
    requires IsLower(c) && !NoWildcard(c) && !Contains(" " + h, c)
    ensures
      var t := Neutral(c) + (Spaces(6) + (Pad(c) + (" " + h)));
      Like(t, "%" + (c + "%")) && !Contains(t, c)
  {
    NeutralIsLike(c);
    PrefixIsLike(Neutral(c), Spaces(6) + (Pad(c) + (" " + h)), c);
    NotBeforeHost(Neutral(c) + Spaces(6), if c[0] == 'x' then 'y' else 'x', h, c);
    Assoc(Neutral(c), Spaces(6), Pad(c) + (" " + h));
  }

  lemma OvermatchedDiffers(q: Query)
    requires !NoWildcard(q.contains) && !EmptyRange(q) && !HostHolds(q)
    ensures Where(q, Overmatched(q)) && !Matches(q, Overmatched(q))
  {
    var c := Lower(q.contains);
    LowerIsLower(q.contains);
    EventForMeets(q, Neutral(c), Pad(c));
    EventForText(q, Neutral(c), Pad(c));
    OvermatchText(c, Lower(q.host));
  }

  /** A host that holds the text makes both filters accept. */
  lemma HostSettles(q: Query, e: Event)
    requires HostHolds(q)
    ensures Matches(q, e) <==> Where(q, e)
  {
    FiltersAgree(q, e);
    WhereParts(q, e);
    var c := Lower(q.contains);
    if q.host == "" {
      SpaceHoldsNoWildcard(c);
      LowerIsLower(q.contains);
    } else if e.host == q.host {
      var before := SearchEndsWithHost(e);
      ContainsEnd(before, " " + Lower(q.host), c);
    }
  }

  lemma SpaceHoldsNoWildcard(c: string)
    requires Contains(" " + Lower(""), c)
    ensures NoWildcard(c)
  {
    var s := " " + Lower("");
    var i :| 0 <= i <= |s| && c <= s[i..];
    forall k | 0 <= k < |c| ensures !IsWildcard(c[k]) { assert c[k] == s[i..][k] == s[i + k]; }
  }

  lemma ContainsEnd(before: string, end: string, c: string)
    requires Contains(end, c)
    ensures Contains(before + end, c)
  {
    var i :| 0 <= i <= |end| && c <= end[i..];
    assert (before + end)[|before| + i..] == end[i..];
  }

  ghost predicate FiltersSame(q: Query) {
    forall e :: Matches(q, e) <==> Where(q, e)
  }

  /** The two filters agree on every event exactly when the searched-for text holds no
      wildcard, or no time is in range, or the host asked for holds the text anyway. */
  lemma FiltersAgreeExactly(q: Query)
    ensures FiltersSame(q) <==> NoWildcard(q.contains) || EmptyRange(q) || HostHolds(q)
  {
    if NoWildcard(q.contains) || EmptyRange(q) || HostHolds(q) {
      forall e ensures Matches(q, e) <==> Where(q, e) {
        FiltersAgree(q, e);
        WhereParts(q, e);
        if HostHolds(q) { HostSettles(q, e); }
      }
    } else {
      OvermatchedDiffers(q);
    }
  }
}
