/** When the attack graph depends on the order of its events and annotations: its nodes
    spelled out, and the exact condition under which every order gives the same graph. */
module AttackGraphOrder {
  import opened Text
  import opened Model
  import opened Sorting
  import opened AttackGraph
  import opened AttackGraphExact

  // ----- what an event says of a process -----

  /** The first informative label an event gives a process: as its own, else as a parent's. */
  function Names(e: Event, pid: Uint32): (name: Option<string>) {
    if e.process.pid == pid && Actor(e).title != Fallback(pid) then Some(Actor(e).title)
    else if Spawns(e) && e.process.ppid == pid && Parent(e).title != Fallback(pid) then Some(Parent(e).title)
    else None
  }

  function Commands(e: Event, pid: Uint32): (command: Option<string>) {
    if e.process.pid == pid && e.process.commandLine != "" then Some(e.process.commandLine) else None
  }

  /** The label shown: the first one given, else the fallback. */
  function Title(es: seq<Event>, pid: Uint32): (title: string) {
    if es == [] then Fallback(pid)
    else TitleStep(Title(es[..|es| - 1], pid), es[|es| - 1], pid)
  }

  function TitleStep(t: string, e: Event, pid: Uint32): (title: string) {
    if t != Fallback(pid) || Names(e, pid).None? then t else Names(e, pid).value
  }

  /** The command line shown: the last one given, else none. */
  function Command(es: seq<Event>, pid: Uint32): (command: string) {
    if es == [] then ""
    else CommandStep(Command(es[..|es| - 1], pid), es[|es| - 1], pid)
  }

  function CommandStep(c: string, e: Event, pid: Uint32): (command: string) {
    if Commands(e, pid).Some? then Commands(e, pid).value else c
  }

  /** The severity shown: the first of the highest rank. */
  ghost function Severity(anns: seq<Annotation>, id: string): (severity: string) {
    if anns == [] then ""
    else
      var s, a := Severity(anns[..|anns| - 1], id), anns[|anns| - 1];
      if Hits(a, id) && SeverityRank(a.severity) > SeverityRank(s) then a.severity else s
  }

  // ----- the same, action by action -----

  ghost function TitleAfter(t: string, acts: seq<Action>, pid: Uint32): (title: string) {
    if acts == [] then t
    else
      var before, a := TitleAfter(t, acts[..|acts| - 1], pid), acts[|acts| - 1];
      if before == Fallback(pid) && InformsAt([a], 0, pid) then a.mention.title else before
  }

  ghost function CommandAfter(c: string, acts: seq<Action>, pid: Uint32): (command: string) {
    if acts == [] then c
    else
      var before, a := CommandAfter(c, acts[..|acts| - 1], pid), acts[|acts| - 1];
      if CommandAt([a], 0, pid) then a.mention.detail else before
  }

  lemma {:induction false} AfterConcat(t: string, c: string, a: seq<Action>, b: seq<Action>, pid: Uint32)
    ensures TitleAfter(t, a + b, pid) == TitleAfter(TitleAfter(t, a, pid), b, pid)
    ensures CommandAfter(c, a + b, pid) == CommandAfter(CommandAfter(c, a, pid), b, pid)
    decreases |b|
  {
    if b == [] {
      assert a + b == a;
    } else {
      AfterConcat(t, c, a, b[..|b| - 1], pid);
      assert (a + b)[..|a + b| - 1] == a + b[..|b| - 1];
    }
  }

  lemma AfterOne(t: string, c: string, a: Action, pid: Uint32)
    ensures TitleAfter(t, [a], pid) == if t == Fallback(pid) && InformsAt([a], 0, pid) then a.mention.title else t
    ensures CommandAfter(c, [a], pid) == if CommandAt([a], 0, pid) then a.mention.detail else c
  {
    assert [a][..0] == [];
  }

  /** A touch and a link: the link says nothing. */
  lemma AfterTwo(t: string, c: string, m: Mention, e: Edge, pid: Uint32)
    ensures
      var acts := [Touch(m), Link(e)];
      && TitleAfter(t, acts, pid) == TitleAfter(t, [Touch(m)], pid)
      && CommandAfter(c, acts, pid) == CommandAfter(c, [Touch(m)], pid)
  {
    AfterConcat(t, c, [Touch(m)], [Link(e)], pid);
    AfterOne(TitleAfter(t, [Touch(m)], pid), CommandAfter(c, [Touch(m)], pid), Link(e), pid);
    assert [Touch(m)] + [Link(e)] == [Touch(m), Link(e)];
  }

  lemma ActorSays(t: string, c: string, e: Event, pid: Uint32)
    ensures TitleAfter(t, [Touch(Actor(e))], pid) ==
      if t == Fallback(pid) && e.process.pid == pid then Actor(e).title else t
    ensures CommandAfter(c, [Touch(Actor(e))], pid) == CommandStep(c, e, pid)
  {
    AfterOne(t, c, Touch(Actor(e)), pid);
    assert [Touch(Actor(e))][0] == Touch(Actor(e));
  }

  lemma ParentSays(t: string, c: string, e: Event, pid: Uint32)
    ensures TitleAfter(t, ParentActions(e), pid) ==
      if t == Fallback(pid) && Spawns(e) && e.process.ppid == pid then Parent(e).title else t
    ensures CommandAfter(c, ParentActions(e), pid) == c
  {
    if Spawns(e) {
      AfterTwo(t, c, Parent(e), ParentActions(e)[1].edge, pid);
      AfterOne(t, c, Touch(Parent(e)), pid);
      assert [Touch(Parent(e))][0] == Touch(Parent(e));
    }
  }

  lemma ObjectSaysNothing(t: string, c: string, e: Event, pid: Uint32)
    ensures TitleAfter(t, ObjectActions(e), pid) == t && CommandAfter(c, ObjectActions(e), pid) == c
  {
    if Object(e).Some? {
      var m := Object(e).value.0;
      AfterTwo(t, c, m, ObjectActions(e)[1].edge, pid);
      AfterOne(t, c, Touch(m), pid);
      assert [Touch(m)][0] == Touch(m);
    }
  }

  lemma EventSays(t: string, c: string, e: Event, pid: Uint32)
    ensures TitleAfter(t, ActionsOf(e), pid) == TitleStep(t, e, pid)
    ensures CommandAfter(c, ActionsOf(e), pid) == CommandStep(c, e, pid)
  {
    AfterConcat(t, c, [Touch(Actor(e))], ParentActions(e) + ObjectActions(e), pid);
    ActorSays(t, c, e, pid);
    var t1, c1 := TitleAfter(t, [Touch(Actor(e))], pid), CommandStep(c, e, pid);
    AfterConcat(t1, c1, ParentActions(e), ObjectActions(e), pid);
    ParentSays(t1, c1, e, pid);
    ObjectSaysNothing(TitleAfter(t1, ParentActions(e), pid), c1, e, pid);
  }

  lemma {:induction false} EventsSay(es: seq<Event>, pid: Uint32)
    ensures TitleAfter(Fallback(pid), AllActions(es), pid) == Title(es, pid)
    ensures CommandAfter("", AllActions(es), pid) == Command(es, pid)
    decreases |es|
  {
    if es != [] {
      var init, e := es[..|es| - 1], es[|es| - 1];
      EventsSay(init, pid);
      AfterConcat(Fallback(pid), "", AllActions(init), ActionsOf(e), pid);
      EventSays(Title(init, pid), Command(init, pid), e, pid);
    }
  }

  lemma {:induction false} AfterIsShown(acts: seq<Action>, pid: Uint32)
    ensures FirstInformative(acts, pid, TitleAfter(Fallback(pid), acts, pid))
    ensures LastCommand(acts, pid, CommandAfter("", acts, pid))
    decreases |acts|
  {
    if acts != [] {
      var init, a := acts[..|acts| - 1], acts[|acts| - 1];
      AfterIsShown(init, pid);
      InitLast(acts);
      assert [a][0] == a;
      var t, c := TitleAfter(Fallback(pid), init, pid), CommandAfter("", init, pid);
      if t == Fallback(pid) && InformsAt([a], 0, pid) {
        FirstFound(init, a, pid);
      } else {
        FirstStays(init, a, pid, t);
      }
      if CommandAt([a], 0, pid) { LastFound(init, a, pid); } else { LastStays(init, a, pid, c); }
    }
  }

  lemma ShownOnce(acts: seq<Action>, pid: Uint32, t: string, u: string, c: string, d: string)
    requires FirstInformative(acts, pid, t) && FirstInformative(acts, pid, u)
    requires LastCommand(acts, pid, c) && LastCommand(acts, pid, d)
    ensures t == u && c == d
  {
    FirstOnce(acts, pid, t, u);
    LastOnce(acts, pid, c, d);
  }

  lemma FirstOnce(acts: seq<Action>, pid: Uint32, t: string, u: string)
    requires FirstInformative(acts, pid, t) && FirstInformative(acts, pid, u)
    ensures t == u
  {
    if k :| InformsAt(acts, k, pid) && acts[k].mention.title == t && forall j :: j < k ==> !InformsAt(acts, j, pid) {
      var m :| InformsAt(acts, m, pid) && acts[m].mention.title == u && forall j :: j < m ==> !InformsAt(acts, j, pid);
    }
  }

  lemma LastOnce(acts: seq<Action>, pid: Uint32, c: string, d: string)
    requires LastCommand(acts, pid, c) && LastCommand(acts, pid, d)
    ensures c == d
  {
    if k :| CommandAt(acts, k, pid) && acts[k].mention.detail == c && forall j :: j > k ==> !CommandAt(acts, j, pid) {
      var m :| CommandAt(acts, m, pid) && acts[m].mention.detail == d && forall j :: j > m ==> !CommandAt(acts, j, pid);
    }
  }

  // ----- every node spelled out -----

  ghost function SpecBase(es: seq<Event>, x: Entity): (n: Node) {
    match x
    case Proc(pid) => Node(Id(x), ProcessKind, Title(es, pid), pid, Command(es, pid), [], "", false)
    case FileAt(path) => Node(Id(x), FileKind, BaseName(path), 0, path, [], "", false)
    case Endpoint(name) => Node(Id(x), NetworkKind, name, 0, name, [], "", false)
  }

  ghost function SpecNode(es: seq<Event>, anns: seq<Annotation>, x: Entity): (n: Node) {
    SpecBase(es, x).(
      techniques := Sorted(Techniques(Elements(anns), Id(x))),
      severity := Severity(anns, Id(x)),
      alerting := exists a :: a in Elements(anns) && Hits(a, Id(x)))
  }

  lemma BaseSpelledOut(es: seq<Event>, x: Entity)
    requires x in AllInvolved(Elements(es))
    ensures BaseNode(es, x) == SpecBase(es, x)
  {
    BaseExists(es, x);
    EventActionsPlain(es);
    var acts := AllActions(es);
    if x.Proc? {
      ProcessNodesExact(acts, x.pid);
      AfterIsShown(acts, x.pid);
      EventsSay(es, x.pid);
      ShownOnce(acts, x.pid, BaseNode(es, x).title, Title(es, x.pid), BaseNode(es, x).detail, Command(es, x.pid));
    } else {
      ObjectNodesExact(acts, x);
    }
  }

  lemma {:induction false} SeverityShown(d: Data, anns: seq<Annotation>, id: string)
    requires id in d.nodes && Unmarked(d.nodes[id])
    ensures id in AnnotatedAll(d, anns).nodes && AnnotatedAll(d, anns).nodes[id].severity == Severity(anns, id)
    decreases |anns|
  {
    if anns != [] {
      SeverityShown(d, anns[..|anns| - 1], id);
      AnnotatedNode(AnnotatedAll(d, anns[..|anns| - 1]), anns[|anns| - 1], id);
    }
  }

  /** A node is its entity's label, command line and detections, and nothing else. */
  lemma NodeSpelledOut(es: seq<Event>, anns: seq<Annotation>, x: Entity)
    requires x in AllInvolved(Elements(es))
    ensures Id(x) in FinalData(es, anns).nodes && FinalData(es, anns).nodes[Id(x)] == SpecNode(es, anns, x)
  {
    BaseExists(es, x);
    BaseUnmarked(es, x);
    BaseSpelledOut(es, x);
    BaseReflected(es, anns, x);
    SeverityShown(Run(EMPTY, AllActions(es)), anns, Id(x));
  }

  ghost function SpecNodes(es: seq<Event>, anns: seq<Annotation>): (ns: set<Node>) {
    set x | x in AllInvolved(Elements(es)) :: SpecNode(es, anns, x)
  }

  lemma NodesSpelledOut(host: string, es: seq<Event>, anns: seq<Annotation>)
    ensures ListOf(NodeBefore, Built(host, es, anns).nodes, SpecNodes(es, anns))
    ensures Orders(NodeBefore, SpecNodes(es, anns))
  {
    var d := FinalData(es, anns);
    FinalIndexed(es, anns);
    FinishedNodes(d, host);
    ListedNodes(d);
    NodesOrdered(d.nodes.Values);
    ValuesSpelledOut(es, anns);
  }

  lemma ValueIsSpec(es: seq<Event>, anns: seq<Annotation>, id: string)
    requires id in FinalData(es, anns).nodes
    ensures FinalData(es, anns).nodes[id] in SpecNodes(es, anns)
  {
    FinalIndexed(es, anns);
    assert id in IdsOf(AllInvolved(Elements(es)));
    var x :| x in AllInvolved(Elements(es)) && Id(x) == id;
    NodeSpelledOut(es, anns, x);
  }

  lemma SpecIsValue(es: seq<Event>, anns: seq<Annotation>, x: Entity)
    requires x in AllInvolved(Elements(es))
    ensures SpecNode(es, anns, x) in FinalData(es, anns).nodes.Values
  {
    NodeSpelledOut(es, anns, x);
  }

  lemma ValuesSpelledOut(es: seq<Event>, anns: seq<Annotation>)
    ensures FinalData(es, anns).nodes.Values == SpecNodes(es, anns)
  {
    var values, specs := FinalData(es, anns).nodes.Values, SpecNodes(es, anns);
    assert values <= specs by {
      forall n | n in values ensures n in specs {
        var id :| id in FinalData(es, anns).nodes && FinalData(es, anns).nodes[id] == n;
        ValueIsSpec(es, anns, id);
      }
    }
    assert specs <= values by {
      forall n | n in specs ensures n in values {
        var x :| x in AllInvolved(Elements(es)) && SpecNode(es, anns, x) == n;
        SpecIsValue(es, anns, x);
      }
    }
  }

  ghost predicate SameNodes(es: seq<Event>, anns: seq<Annotation>, fs: seq<Event>, bnns: seq<Annotation>) {
    forall x :: x in AllInvolved(Elements(es)) ==> SpecNode(es, anns, x) == SpecNode(fs, bnns, x)
  }

  lemma SameNodesSameSet(es: seq<Event>, anns: seq<Annotation>, fs: seq<Event>, bnns: seq<Annotation>)
    requires Elements(es) == Elements(fs)
    ensures SpecNodes(es, anns) == SpecNodes(fs, bnns) <==> SameNodes(es, anns, fs, bnns)
  {
    if SpecNodes(es, anns) == SpecNodes(fs, bnns) {
      forall x | x in AllInvolved(Elements(es)) ensures SpecNode(es, anns, x) == SpecNode(fs, bnns, x) {
        assert SpecNode(es, anns, x) in SpecNodes(fs, bnns);
        var y :| y in AllInvolved(Elements(fs)) && SpecNode(fs, bnns, y) == SpecNode(es, anns, x);
        IdOfSpec(es, anns, x);
        IdOfSpec(fs, bnns, y);
        IdInjective(x, y);
      }
    }
  }

  lemma IdOfSpec(es: seq<Event>, anns: seq<Annotation>, x: Entity)
    ensures SpecNode(es, anns, x).id == Id(x)
  {
  }

  /** Two inputs with the same events and annotations give one graph exactly when every
      entity's node is the same. */
  lemma SameGraph(host: string, es: seq<Event>, anns: seq<Annotation>, fs: seq<Event>, bnns: seq<Annotation>)
    requires Elements(es) == Elements(fs) && Elements(anns) == Elements(bnns)
    ensures Built(host, es, anns) == Built(host, fs, bnns) <==> SameNodes(es, anns, fs, bnns)
  {
    var g, h := Built(host, es, anns), Built(host, fs, bnns);
    NodesSpelledOut(host, es, anns);
    NodesSpelledOut(host, fs, bnns);
    SameNodesSameSet(es, anns, fs, bnns);
    if SameNodes(es, anns, fs, bnns) {
      ListUnique(NodeBefore, g.nodes, h.nodes, SpecNodes(es, anns));
      SameEdges(host, es, anns, fs, bnns);
    }
  }

  lemma SameEdges(host: string, es: seq<Event>, anns: seq<Annotation>, fs: seq<Event>, bnns: seq<Annotation>)
    requires Elements(es) == Elements(fs) && Elements(anns) == Elements(bnns)
    ensures Built(host, es, anns).edges == Built(host, fs, bnns).edges
    ensures Built(host, es, anns).host == Built(host, fs, bnns).host
  {
    OrderIndependent(host, es, fs, anns, bnns);
  }

  // ----- the condition -----

  /** All events that name a process give it the same label first. */
  ghost predicate OneLabel(es: set<Event>) {
    forall e, f, pid :: e in es && f in es && Names(e, pid).Some? && Names(f, pid).Some? ==>
      Names(e, pid) == Names(f, pid)
  }

  /** All command lines seen of a process are the same. */
  ghost predicate OneCommand(es: set<Event>) {
    forall e, f, pid :: e in es && f in es && Commands(e, pid).Some? && Commands(f, pid).Some? ==>
      Commands(e, pid) == Commands(f, pid)
  }

  ghost predicate Top(anns: set<Annotation>, a: Annotation) {
    a in anns && SeverityRank(a.severity) > 0 &&
    forall b :: b in anns && b.pid == a.pid ==> SeverityRank(b.severity) <= SeverityRank(a.severity)
  }

  /** The highest severities on a process of the graph are spelled alike. */
  ghost predicate OneSpelling(es: set<Event>, anns: set<Annotation>) {
    forall a, b :: Top(anns, a) && Top(anns, b) && a.pid == b.pid && Proc(a.pid) in AllInvolved(es) ==>
      a.severity == b.severity
  }

  ghost predicate Steady(es: set<Event>, anns: set<Annotation>) {
    OneLabel(es) && OneCommand(es) && OneSpelling(es, anns)
  }

  // ----- it is enough -----

  ghost predicate TitleSource(es: set<Event>, pid: Uint32, t: string) {
    (t == Fallback(pid) && forall e :: e in es ==> Names(e, pid).None?) ||
      exists e :: e in es && Names(e, pid) == Some(t)
  }

  lemma {:induction false} TitleHasSource(es: seq<Event>, pid: Uint32)
    ensures TitleSource(Elements(es), pid, Title(es, pid))
    decreases |es|
  {
    if es != [] {
      TitleHasSource(es[..|es| - 1], pid);
      ElementsLast(es);
      TitleSourceStep(Elements(es[..|es| - 1]), es[|es| - 1], pid, Title(es[..|es| - 1], pid));
    }
  }

  lemma TitleSourceStep(es: set<Event>, e: Event, pid: Uint32, t: string)
    requires TitleSource(es, pid, t)
    ensures TitleSource(es + {e}, pid, TitleStep(t, e, pid))
  {
    assert e in es + {e};
    if f :| f in es && Names(f, pid) == Some(t) { assert f in es + {e}; }
  }

  ghost predicate CommandSource(es: set<Event>, pid: Uint32, c: string) {
    (c == "" && forall e :: e in es ==> Commands(e, pid).None?) || exists e :: e in es && Commands(e, pid) == Some(c)
  }

  lemma {:induction false} CommandHasSource(es: seq<Event>, pid: Uint32)
    ensures CommandSource(Elements(es), pid, Command(es, pid))
    decreases |es|
  {
    if es != [] {
      CommandHasSource(es[..|es| - 1], pid);
      ElementsLast(es);
      CommandSourceStep(Elements(es[..|es| - 1]), es[|es| - 1], pid, Command(es[..|es| - 1], pid));
    }
  }

  lemma CommandSourceStep(es: set<Event>, e: Event, pid: Uint32, c: string)
    requires CommandSource(es, pid, c)
    ensures CommandSource(es + {e}, pid, CommandStep(c, e, pid))
  {
    assert e in es + {e};
    if f :| f in es && Commands(f, pid) == Some(c) { assert f in es + {e}; }
  }

  lemma TextSteady(es: seq<Event>, fs: seq<Event>, pid: Uint32)
    requires Elements(es) == Elements(fs) && OneLabel(Elements(es)) && OneCommand(Elements(es))
    ensures Title(es, pid) == Title(fs, pid) && Command(es, pid) == Command(fs, pid)
  {
    TitleHasSource(es, pid);
    TitleHasSource(fs, pid);
    CommandHasSource(es, pid);
    CommandHasSource(fs, pid);
  }

  lemma {:induction false} SeverityIsHighest(anns: seq<Annotation>, id: string)
    ensures HighestSeverity(Elements(anns), id, Severity(anns, id))
    decreases |anns|
  {
    if anns != [] {
      var init, a := anns[..|anns| - 1], anns[|anns| - 1];
      SeverityIsHighest(init, id);
      ElementsLast(anns);
      if Hits(a, id) {
        SeverityStep(Elements(init), id, Severity(init, id), a);
      } else {
        HighestMiss(Elements(init), id, Severity(init, id), a);
      }
    } else {
      assert SeverityRank("") == 0;
    }
  }

  lemma HitsProcess(a: Annotation, x: Entity)
    ensures Hits(a, Id(x)) <==> x == Proc(a.pid)
  {
    if Hits(a, Id(x)) { IdInjective(x, Proc(a.pid)); }
  }

  /** A severity that is shown is one of the highest on its process. */
  lemma ShownIsTop(anns: set<Annotation>, x: Entity, severity: string) returns (a: Annotation)
    requires HighestSeverity(anns, Id(x), severity) && severity != ""
    ensures x == Proc(a.pid) && a.severity == severity && Top(anns, a)
  {
    a :| a in anns && Hits(a, Id(x)) && a.severity == severity;
    HitsProcess(a, x);
    forall b | b in anns && b.pid == a.pid ensures SeverityRank(b.severity) <= SeverityRank(a.severity) {
      HitsProcess(b, x);
    }
  }

  lemma UnrankedIsNone(anns: set<Annotation>, id: string, severity: string)
    requires HighestSeverity(anns, id, severity)
    ensures severity == "" <==> SeverityRank(severity) == 0
  {
    assert SeverityRank("") == 0;
  }

  lemma BothNone(anns: set<Annotation>, id: string, s: string, t: string)
    requires HighestSeverity(anns, id, s) && HighestSeverity(anns, id, t)
    ensures s == "" <==> t == ""
  {
    HighestRankUnique(anns, id, s, t);
    HighestRankUnique(anns, id, t, s);
    UnrankedIsNone(anns, id, s);
    UnrankedIsNone(anns, id, t);
  }

  lemma SeveritySteady(es: set<Event>, anns: seq<Annotation>, bnns: seq<Annotation>, x: Entity)
    requires Elements(anns) == Elements(bnns) && OneSpelling(es, Elements(anns)) && x in AllInvolved(es)
    ensures Severity(anns, Id(x)) == Severity(bnns, Id(x))
  {
    var s, t, all := Severity(anns, Id(x)), Severity(bnns, Id(x)), Elements(anns);
    SeverityIsHighest(anns, Id(x));
    SeverityIsHighest(bnns, Id(x));
    BothNone(all, Id(x), s, t);
    if s != "" {
      var a := ShownIsTop(all, x, s);
      var b := ShownIsTop(all, x, t);
    }
  }

  /** Under the condition, events and annotations in any order, with any repetition, give the
      same graph. */
  lemma SteadyIsEnough(host: string, es: seq<Event>, anns: seq<Annotation>, fs: seq<Event>, bnns: seq<Annotation>)
    requires Elements(es) == Elements(fs) && Elements(anns) == Elements(bnns)
    requires Steady(Elements(es), Elements(anns))
    ensures Built(host, es, anns) == Built(host, fs, bnns)
  {
    forall x | x in AllInvolved(Elements(es)) ensures SpecNode(es, anns, x) == SpecNode(fs, bnns, x) {
      SeveritySteady(Elements(es), anns, bnns, x);
      if x.Proc? { TextSteady(es, fs, x.pid); }
    }
    SameGraph(host, es, anns, fs, bnns);
  }

  // ----- and it is needed -----

  function MoveFirst<T>(xs: seq<T>, i: nat): (r: seq<T>)
    requires i < |xs|
  {
    [xs[i]] + (xs[..i] + xs[i + 1..])
  }

  function MoveLast<T>(xs: seq<T>, i: nat): (r: seq<T>)
    requires i < |xs|
  {
    xs[..i] + xs[i + 1..] + [xs[i]]
  }

  lemma Moved<T>(xs: seq<T>, i: nat)
    requires i < |xs|
    ensures multiset(MoveFirst(xs, i)) == multiset(xs) == multiset(MoveLast(xs, i))
    ensures Elements(MoveFirst(xs, i)) == Elements(xs) == Elements(MoveLast(xs, i))
  {
    assert xs == xs[..i] + [xs[i]] + xs[i + 1..];
    SameElements(xs, MoveFirst(xs, i));
    SameElements(xs, MoveLast(xs, i));
  }

  lemma SameElements<T>(xs: seq<T>, ys: seq<T>)
    requires multiset(xs) == multiset(ys)
    ensures Elements(xs) == Elements(ys)
  {
    forall x ensures x in xs <==> x in ys {
      assert x in multiset(xs) <==> x in multiset(ys);
    }
  }

  lemma {:induction false} FirstNames(e: Event, rest: seq<Event>, pid: Uint32)
    requires Names(e, pid).Some?
    ensures Title([e] + rest, pid) == Names(e, pid).value
    decreases |rest|
  {
    if rest == [] {
      assert [e] + rest == [e] && [e][..0] == [];
    } else {
      FirstNames(e, rest[..|rest| - 1], pid);
      assert ([e] + rest)[..|rest|] == [e] + rest[..|rest| - 1];
    }
  }

  lemma LastCommands(rest: seq<Event>, e: Event, pid: Uint32)
    requires Commands(e, pid).Some?
    ensures Command(rest + [e], pid) == Commands(e, pid).value
  {
    assert (rest + [e])[..|rest|] == rest;
  }

  lemma {:induction false} FirstTop(a: Annotation, rest: seq<Annotation>)
    requires SeverityRank(a.severity) > 0
    requires forall b :: b in rest && b.pid == a.pid ==> SeverityRank(b.severity) <= SeverityRank(a.severity)
    ensures Severity([a] + rest, Id(Proc(a.pid))) == a.severity
    decreases |rest|
  {
    var id := Id(Proc(a.pid));
    assert SeverityRank("") == 0;
    if rest == [] {
      assert [a] + rest == [a] && [a][..0] == [];
    } else {
      var init, b := rest[..|rest| - 1], rest[|rest| - 1];
      FirstTop(a, init);
      assert ([a] + rest)[..|rest|] == [a] + init && b in rest;
      HitsProcess(b, Proc(a.pid));
    }
  }

  /** A reordering: the same entries, as often. */
  ghost predicate Reorders<T>(xs: seq<T>, ys: seq<T>) {
    multiset(xs) == multiset(ys)
  }

  lemma NodesDiffer(
    host: string, es: seq<Event>, anns: seq<Annotation>, fs: seq<Event>, bnns: seq<Annotation>, x: Entity)
    requires Elements(es) == Elements(fs) && Elements(anns) == Elements(bnns) && x in AllInvolved(Elements(es))
    requires SpecNode(es, anns, x) != SpecNode(fs, bnns, x)
    ensures Built(host, es, anns) != Built(host, fs, bnns)
  {
    SameGraph(host, es, anns, fs, bnns);
  }

  lemma NamedIsInvolved(es: set<Event>, e: Event, pid: Uint32)
    requires e in es && (Names(e, pid).Some? || Commands(e, pid).Some?)
    ensures Proc(pid) in AllInvolved(es)
  {
    assert Proc(pid) in InvolvedIn(e);
  }

  /** Two labels: bringing an event to the front changes the one shown. */
  lemma TwoLabelsDiffer(host: string, es: seq<Event>, anns: seq<Annotation>) returns (fs: seq<Event>)
    requires !OneLabel(Elements(es))
    ensures Reorders(es, fs) && Built(host, es, anns) != Built(host, fs, anns)
  {
    var e, f, pid: Uint32 :| e in Elements(es) && f in Elements(es) && Names(e, pid).Some? && Names(f, pid).Some? &&
      Names(e, pid) != Names(f, pid);
    var g := if Names(e, pid) == Some(Title(es, pid)) then f else e;
    var i :| 0 <= i < |es| && es[i] == g;
    fs := MoveFirst(es, i);
    Moved(es, i);
    FirstNames(g, es[..i] + es[i + 1..], pid);
    NamedIsInvolved(Elements(es), g, pid);
    NodesDiffer(host, es, anns, fs, anns, Proc(pid));
  }

  /** Two command lines: bringing an event to the end changes the one shown. */
  lemma TwoCommandsDiffer(host: string, es: seq<Event>, anns: seq<Annotation>) returns (fs: seq<Event>)
    requires !OneCommand(Elements(es))
    ensures Reorders(es, fs) && Built(host, es, anns) != Built(host, fs, anns)
  {
    var e, f, pid: Uint32 :| e in Elements(es) && f in Elements(es) && Commands(e, pid).Some? &&
      Commands(f, pid).Some? && Commands(e, pid) != Commands(f, pid);
    var g := if Commands(e, pid) == Some(Command(es, pid)) then f else e;
    var i :| 0 <= i < |es| && es[i] == g;
    fs := MoveLast(es, i);
    Moved(es, i);
    LastCommands(es[..i] + es[i + 1..], g, pid);
    NamedIsInvolved(Elements(es), g, pid);
    NodesDiffer(host, es, anns, fs, anns, Proc(pid));
  }

  /** Two spellings: bringing an annotation to the front changes the one shown. */
  lemma TwoSpellingsDiffer(host: string, es: seq<Event>, anns: seq<Annotation>) returns (bnns: seq<Annotation>)
    requires !OneSpelling(Elements(es), Elements(anns))
    ensures Reorders(anns, bnns) && Built(host, es, anns) != Built(host, es, bnns)
  {
    var all := Elements(anns);
    var a, b :| Top(all, a) && Top(all, b) && a.pid == b.pid && Proc(a.pid) in AllInvolved(Elements(es)) &&
      a.severity != b.severity;
    var g := if a.severity == Severity(anns, Id(Proc(a.pid))) then b else a;
    var i :| 0 <= i < |anns| && anns[i] == g;
    bnns := MoveFirst(anns, i);
    Moved(anns, i);
    forall c | c in anns[..i] + anns[i + 1..] && c.pid == g.pid
      ensures SeverityRank(c.severity) <= SeverityRank(g.severity)
    {
      assert c in all;
    }
    FirstTop(g, anns[..i] + anns[i + 1..]);
    NodesDiffer(host, es, anns, es, bnns, Proc(a.pid));
  }

  /** Every order of the events and of the annotations gives the same graph. */
  ghost predicate OrderFree(host: string, es: seq<Event>, anns: seq<Annotation>) {
    forall fs, bnns :: Reorders(es, fs) && Reorders(anns, bnns) ==> Built(host, es, anns) == Built(host, fs, bnns)
  }

  /** The graph does not depend on the order exactly when each process has one first label and
      one command line, and its highest severities have one spelling. */
  lemma OrderFreeExactly(host: string, es: seq<Event>, anns: seq<Annotation>)
    ensures OrderFree(host, es, anns) <==> Steady(Elements(es), Elements(anns))
  {
    if Steady(Elements(es), Elements(anns)) {
      forall fs, bnns | Reorders(es, fs) && Reorders(anns, bnns)
        ensures Built(host, es, anns) == Built(host, fs, bnns)
      {
        SameElements(es, fs);
        SameElements(anns, bnns);
        SteadyIsEnough(host, es, anns, fs, bnns);
      }
    } else if !OneLabel(Elements(es)) {
      var fs := TwoLabelsDiffer(host, es, anns);
      assert Reorders(anns, anns);
    } else if !OneCommand(Elements(es)) {
      var fs := TwoCommandsDiffer(host, es, anns);
      assert Reorders(anns, anns);
    } else {
      var bnns := TwoSpellingsDiffer(host, es, anns);
      assert Reorders(es, es);
    }
  }

  // ----- one input per clause -----

  function Exec(pid: Uint32, name: string, command: string): (e: Event) {
    EMPTY_EVENT.(action := "exec", process := EMPTY_EVENT.process.(pid := pid, name := name, commandLine := command))
  }

  lemma LabelExample()
    ensures !OneLabel(Elements([Exec(7, "bash", ""), Exec(7, "sh", "")]))
  {
    var es := [Exec(7, "bash", ""), Exec(7, "sh", "")];
    assert es[0] in Elements(es) && es[1] in Elements(es);
    assert "bash"[0] != "pid "[0] && "sh"[0] != "pid "[0];
    assert Fallback(7)[0] == 'p';
    assert Names(es[0], 7) == Some("bash") && Names(es[1], 7) == Some("sh");
  }

  lemma CommandExample()
    ensures !OneCommand(Elements([Exec(7, "bash", "id"), Exec(7, "bash", "ls")]))
  {
    var es := [Exec(7, "bash", "id"), Exec(7, "bash", "ls")];
    assert es[0] in Elements(es) && es[1] in Elements(es);
    assert Commands(es[0], 7) == Some("id") && Commands(es[1], 7) == Some("ls");
    assert "id"[0] != "ls"[0];
  }

  lemma SpellingExample()
    ensures !OneSpelling(Elements([Exec(7, "bash", "")]),
            Elements([Annotation(7, "", "High"), Annotation(7, "", "high")]))
  {
    var es, anns := [Exec(7, "bash", "")], [Annotation(7, "", "High"), Annotation(7, "", "high")];
    assert es[0] in Elements(es) && Proc(7) in InvolvedIn(es[0]);
    assert anns[0] in Elements(anns) && anns[1] in Elements(anns);
    assert Lower("High") == "high" && Lower("high") == "high";
    assert Top(Elements(anns), anns[0]) && Top(Elements(anns), anns[1]);
    assert "High"[0] != "high"[0];
  }
}
