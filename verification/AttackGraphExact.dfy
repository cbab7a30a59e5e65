/** What the attack graph holds, stated without its builder. */
module AttackGraphExact {
  import opened Text
  import opened Model
  import opened Sorting
  import opened AttackGraph

  // ----- names are unambiguous -----

  lemma IdInjective(x: Entity, y: Entity)
    requires Id(x) == Id(y)
    ensures x == y
  {
    var s, t := Id(x), Id(y);
    assert s[0] == (if x.Proc? then 'p' else if x.FileAt? then 'f' else 'n');
    assert t[0] == (if y.Proc? then 'p' else if y.FileAt? then 'f' else 'n');
    match x
    case Proc(p) =>
      assert s[5..] == FormatNat(p) && t[5..] == FormatNat(y.pid);
      FormatNatInjective(p, y.pid);
    case FileAt(p) =>
      assert s[5..] == p && t[5..] == y.path;
    case Endpoint(n) =>
      assert s[4..] == n && t[4..] == y.name;
  }

  /** An edge the builder makes: neither its source nor its kind holds the key's separator. */
  ghost predicate BuilderEdge(e: Edge) {
    '|' !in e.source && '|' !in e.kind
  }

  /** The joined key tells builder edges apart, whatever their targets hold. */
  lemma EdgeKeyInjective(e: Edge, f: Edge)
    requires BuilderEdge(e) && BuilderEdge(f) && EdgeKey(e) == EdgeKey(f)
    ensures e == f
  {
    SplitLastUnique(e.source + "|" + e.target, e.kind, f.source + "|" + f.target, f.kind, '|');
    Assoc(e.source, "|", e.target);
    Assoc(f.source, "|", f.target);
    SplitUnique(e.source, e.target, f.source, f.target, '|');
  }

  /** It would not tell apart edges whose source held the separator. */
  lemma KeysOtherwiseCollide()
    ensures exists e: Edge, f: Edge :: e != f && EdgeKey(e) == EdgeKey(f)
  {
    var e, f := Edge("a|b", "c", "k"), Edge("a", "b|c", "k");
    assert EdgeKey(e) == "a|b|c|k" && EdgeKey(f) == "a|b|c|k";
    assert |e.source| != |f.source|;
  }

  lemma ProcessIdPlain(pid: Uint32)
    ensures '|' !in Id(Proc(pid))
  {
    assert forall c :: c in FormatNat(pid) ==> IsDigit(c);
  }

  // ----- edges -----

  ghost function LinksOf(acts: seq<Action>): (s: set<Edge>) {
    set a | a in acts && a.Link? :: a.edge
  }

  ghost predicate PlainLinks(acts: seq<Action>) {
    forall a :: a in acts && a.Link? ==> BuilderEdge(a.edge)
  }

  ghost predicate Keyed(d: Data) {
    forall key :: key in d.edges ==> key == EdgeKey(d.edges[key]) && BuilderEdge(d.edges[key])
  }

  lemma LinkAdds(d: Data, e: Edge)
    requires Keyed(d) && BuilderEdge(e)
    ensures Keyed(Linked(d, e)) && Linked(d, e).edges.Values == d.edges.Values + {e}
  {
    var key := EdgeKey(e);
    if key in d.edges {
      EdgeKeyInjective(d.edges[key], e);
    } else {
      var m := Linked(d, e).edges;
      assert m[key] == e;
      forall f | f in d.edges.Values ensures f in m.Values {
        var k :| k in d.edges && d.edges[k] == f;
        assert m[k] == f;
      }
    }
  }

  lemma LastAction(acts: seq<Action>)
    requires acts != []
    ensures
      var init, a := acts[..|acts| - 1], acts[|acts| - 1];
      && LinksOf(acts) == LinksOf(init) + (if a.Link? then {a.edge} else {})
      && (PlainLinks(acts) ==> PlainLinks(init))
  {
    assert acts == acts[..|acts| - 1] + [acts[|acts| - 1]];
  }

  /** Whatever the order of actions, deduplication loses no edge and keeps no other. */
  lemma {:induction false} EdgesAreLinks(acts: seq<Action>)
    requires PlainLinks(acts)
    ensures Keyed(Run(EMPTY, acts)) && Run(EMPTY, acts).edges.Values == LinksOf(acts)
    decreases |acts|
  {
    if acts == [] {
      assert EMPTY.edges.Values == {};
    } else {
      var init, a := acts[..|acts| - 1], acts[|acts| - 1];
      LastAction(acts);
      EdgesAreLinks(init);
      if a.Link? { LinkAdds(Run(EMPTY, init), a.edge); }
    }
  }

  /** The causal triples of an event: its spawn, and what its process acted on. */
  ghost function CausedBy(e: Event): (s: set<Edge>) {
    (if Spawns(e) then {Edge(Id(Proc(e.process.ppid)), Id(Proc(e.process.pid)), "spawned")} else {})
    + (match Object(e)
       case None => {}
       case Some((m, kind)) => {Edge(Id(Proc(e.process.pid)), Id(m.entity), kind)})
  }

  ghost function AllCaused(es: set<Event>): (s: set<Edge>) {
    Union(CausedBy, es)
  }

  lemma LinksConcat(a: seq<Action>, b: seq<Action>)
    ensures LinksOf(a + b) == LinksOf(a) + LinksOf(b)
    ensures PlainLinks(a + b) <==> PlainLinks(a) && PlainLinks(b)
  {
    assert forall x :: x in a + b <==> x in a || x in b;
  }

  lemma EventLinks(e: Event)
    ensures LinksOf(ActionsOf(e)) == CausedBy(e) && PlainLinks(ActionsOf(e))
  {
    LinksConcat([Touch(Actor(e))], ParentActions(e) + ObjectActions(e));
    LinksConcat(ParentActions(e), ObjectActions(e));
    ParentLinks(e);
    ObjectLinks(e);
  }

  lemma ParentLinks(e: Event)
    ensures PlainLinks(ParentActions(e))
    ensures LinksOf(ParentActions(e)) ==
      if Spawns(e) then {Edge(Id(Proc(e.process.ppid)), Id(Proc(e.process.pid)), "spawned")} else {}
  {
    ProcessIdPlain(e.process.ppid);
    if Spawns(e) { assert ParentActions(e)[1] in ParentActions(e); }
  }

  lemma ObjectLinks(e: Event)
    ensures PlainLinks(ObjectActions(e))
    ensures LinksOf(ObjectActions(e)) ==
      match Object(e) case None => {} case Some((m, kind)) => {Edge(Id(Proc(e.process.pid)), Id(m.entity), kind)}
  {
    ProcessIdPlain(e.process.pid);
    KindPlain(e);
    if Object(e).Some? { assert ObjectActions(e)[1] in ObjectActions(e); }
  }

  lemma KindPlain(e: Event)
    ensures Object(e).Some? ==> '|' !in Object(e).value.1
  {
  }

  lemma {:induction false} AllLinks(es: seq<Event>)
    ensures LinksOf(AllActions(es)) == AllCaused(Elements(es)) && PlainLinks(AllActions(es))
    decreases |es|
  {
    if es != [] {
      var init, e := es[..|es| - 1], es[|es| - 1];
      AllLinks(init);
      EventLinks(e);
      LinksConcat(AllActions(init), ActionsOf(e));
      ElementsLast(es);
      UnionAdd(CausedBy, Elements(init), e);
    }
  }

  lemma {:induction false} AnnotationsKeepEdges(d: Data, anns: seq<Annotation>)
    ensures AnnotatedAll(d, anns).edges == d.edges && AnnotatedAll(d, anns).order == d.order
    ensures AnnotatedAll(d, anns).nodes.Keys == d.nodes.Keys
    decreases |anns|
  {
    if anns != [] {
      AnnotationsKeepEdges(d, anns[..|anns| - 1]);
      assert Annotated(AnnotatedAll(d, anns[..|anns| - 1]), anns[|anns| - 1]).nodes.Keys == d.nodes.Keys;
    }
  }

  /** The graph's edges are exactly the causal triples of its events, strictly sorted. */
  lemma EdgesExact(host: string, es: seq<Event>, anns: seq<Annotation>)
    ensures ListOf(EdgeBefore, Built(host, es, anns).edges, AllCaused(Elements(es)))
  {
    var d := Run(EMPTY, AllActions(es));
    AllLinks(es);
    EdgesAreLinks(AllActions(es));
    AnnotationsKeepEdges(d, anns);
    EdgesOrdered(d.edges.Values);
  }

  // ----- nodes -----

  ghost function MentionedIn(acts: seq<Action>): (s: set<Entity>) {
    set a | a in acts && a.Touch? :: a.mention.entity
  }

  lemma MentionsConcat(a: seq<Action>, b: seq<Action>)
    ensures MentionedIn(a + b) == MentionedIn(a) + MentionedIn(b)
  {
    assert forall x :: x in a + b <==> x in a || x in b;
  }

  ghost function IdsOf(s: set<Entity>): (ids: set<string>) {
    set x | x in s :: Id(x)
  }

  lemma IdIn(s: set<Entity>, x: Entity)
    ensures Id(x) in IdsOf(s) <==> x in s
  {
    if Id(x) in IdsOf(s) {
      var y :| y in s && Id(y) == Id(x);
      IdInjective(x, y);
    }
  }

  lemma IdsAdd(s: set<Entity>, x: Entity)
    ensures IdsOf(s + {x}) == IdsOf(s) + {Id(x)}
  {
    assert x in s + {x};
    forall y | y in s ensures Id(y) in IdsOf(s + {x}) { assert y in s + {x}; }
  }

  /** The entities an event involves: its process, the parent it was spawned by, its object. */
  ghost function InvolvedIn(e: Event): (s: set<Entity>) {
    {Proc(e.process.pid)} + (ParentOf(e) + ObjectOf(e))
  }

  ghost function ParentOf(e: Event): (s: set<Entity>) {
    if Spawns(e) then {Proc(e.process.ppid)} else {}
  }

  ghost function ObjectOf(e: Event): (s: set<Entity>) {
    if Object(e).Some? then {Object(e).value.0.entity} else {}
  }

  ghost function AllInvolved(es: set<Event>): (s: set<Entity>) {
    Union(InvolvedIn, es)
  }

  lemma MentionedByOne(m: Mention)
    ensures MentionedIn([Touch(m)]) == {m.entity}
  {
    assert [Touch(m)][0] in [Touch(m)];
  }

  lemma MentionedByTwo(m: Mention, e: Edge)
    ensures MentionedIn([Touch(m), Link(e)]) == {m.entity}
  {
    MentionsConcat([Touch(m)], [Link(e)]);
    MentionedByOne(m);
    assert [Touch(m)] + [Link(e)] == [Touch(m), Link(e)];
  }

  lemma ParentMentions(e: Event)
    ensures MentionedIn(ParentActions(e)) == ParentOf(e)
  {
    if Spawns(e) { MentionedByTwo(Parent(e), ParentActions(e)[1].edge); }
  }

  lemma ObjectMentions(e: Event)
    ensures MentionedIn(ObjectActions(e)) == ObjectOf(e)
  {
    if Object(e).Some? { MentionedByTwo(Object(e).value.0, ObjectActions(e)[1].edge); }
  }

  lemma EventMentions(e: Event)
    ensures MentionedIn(ActionsOf(e)) == InvolvedIn(e)
  {
    MentionsConcat([Touch(Actor(e))], ParentActions(e) + ObjectActions(e));
    MentionsConcat(ParentActions(e), ObjectActions(e));
    MentionedByOne(Actor(e));
    ParentMentions(e);
    ObjectMentions(e);
  }

  lemma {:induction false} AllMentions(es: seq<Event>)
    ensures MentionedIn(AllActions(es)) == AllInvolved(Elements(es))
    decreases |es|
  {
    if es != [] {
      var init, e := es[..|es| - 1], es[|es| - 1];
      AllMentions(init);
      EventMentions(e);
      MentionsConcat(AllActions(init), ActionsOf(e));
      ElementsLast(es);
      UnionAdd(InvolvedIn, Elements(init), e);
    }
  }

  lemma TouchedKeys(d: Data, m: Mention)
    ensures Touched(d, m).nodes.Keys == d.nodes.Keys + {Id(m.entity)}
  {
  }

  lemma {:induction false} NodesAreMentions(acts: seq<Action>)
    ensures Run(EMPTY, acts).nodes.Keys == IdsOf(MentionedIn(acts))
    decreases |acts|
  {
    if acts != [] {
      var init, a := acts[..|acts| - 1], acts[|acts| - 1];
      NodesAreMentions(init);
      assert acts == init + [a];
      MentionsConcat(init, [a]);
      match a
      case Touch(m) =>
        MentionedByOne(m);
        TouchedKeys(Run(EMPTY, init), m);
        IdsAdd(MentionedIn(init), m.entity);
      case Link(_) =>
        assert MentionedIn([a]) == {};
    }
  }

  ghost function Ids(g: Graph): (ids: seq<string>) {
    seq(|g.nodes|, i requires 0 <= i < |g.nodes| => g.nodes[i].id)
  }

  ghost function FinalData(es: seq<Event>, anns: seq<Annotation>): (d: Data) {
    AnnotatedAll(Run(EMPTY, AllActions(es)), anns)
  }

  lemma FinalIndexed(es: seq<Event>, anns: seq<Annotation>)
    ensures Indexed(FinalData(es, anns))
    ensures FinalData(es, anns).nodes.Keys == IdsOf(AllInvolved(Elements(es)))
  {
    RunKeepsIndex(EMPTY, AllActions(es));
    AnnotationsKeepIndex(Run(EMPTY, AllActions(es)), anns);
    AnnotationsKeepEdges(Run(EMPTY, AllActions(es)), anns);
    NodesAreMentions(AllActions(es));
    AllMentions(es);
  }

  lemma FinishedNodes(d: Data, host: string)
    requires Indexed(d)
    ensures ListOf(NodeBefore, Finished(d, host).nodes, d.nodes.Values)
  {
    ListedNodes(d);
    NodesOrdered(d.nodes.Values);
    SortListLists(NodeBefore, Listed(d, d.order));
  }

  lemma IdsList(d: Data, host: string)
    requires Indexed(d)
    ensures ListOf(Less, Ids(Finished(d, host)), d.nodes.Keys)
  {
    FinishedNodes(d, host);
    var g := Finished(d, host);
    forall i, j | 0 <= i < j < |g.nodes| ensures Less(Ids(g)[i], Ids(g)[j]) {
      assert NodeBefore(g.nodes[i], g.nodes[j]);
    }
    forall id | id in d.nodes.Keys ensures id in Elements(Ids(g)) {
      assert d.nodes[id] in d.nodes.Values;
      assert d.nodes[id] in Elements(g.nodes);
      var i :| 0 <= i < |g.nodes| && g.nodes[i] == d.nodes[id];
      assert Ids(g)[i] == id;
    }
    forall id | id in Elements(Ids(g)) ensures id in d.nodes.Keys {
      var i :| 0 <= i < |g.nodes| && Ids(g)[i] == id;
      assert g.nodes[i] in Elements(g.nodes);
    }
  }

  /** The nodes are exactly the entities the events involve, strictly sorted by id. */
  lemma NodesExact(host: string, es: seq<Event>, anns: seq<Annotation>)
    ensures ListOf(Less, Ids(Built(host, es, anns)), IdsOf(AllInvolved(Elements(es))))
  {
    FinalIndexed(es, anns);
    IdsList(FinalData(es, anns), host);
  }

  lemma CausedJoins(e: Event, edge: Edge)
    requires edge in CausedBy(e)
    ensures edge.source in IdsOf(InvolvedIn(e)) && edge.target in IdsOf(InvolvedIn(e))
  {
    assert Proc(e.process.pid) in InvolvedIn(e);
    assert Spawns(e) ==> Proc(e.process.ppid) in InvolvedIn(e);
    assert Object(e).Some? ==> Object(e).value.0.entity in InvolvedIn(e);
  }

  lemma InvolvedIds(es: set<Event>, e: Event, id: string)
    requires e in es && id in IdsOf(InvolvedIn(e))
    ensures id in IdsOf(AllInvolved(es))
  {
    var x :| x in InvolvedIn(e) && Id(x) == id;
    assert x in AllInvolved(es);
  }

  /** Every edge joins two nodes. */
  lemma EndpointsAreNodes(host: string, es: seq<Event>, anns: seq<Annotation>, edge: Edge)
    requires edge in Built(host, es, anns).edges
    ensures edge.source in Ids(Built(host, es, anns)) && edge.target in Ids(Built(host, es, anns))
  {
    EdgesExact(host, es, anns);
    NodesExact(host, es, anns);
    var g := Built(host, es, anns);
    assert edge in Elements(g.edges);
    var e :| e in Elements(es) && edge in CausedBy(e);
    CausedJoins(e, edge);
    InvolvedIds(Elements(es), e, edge.source);
    InvolvedIds(Elements(es), e, edge.target);
    assert edge.source in Elements(Ids(g)) && edge.target in Elements(Ids(g));
  }

  // ----- what a node says -----

  ghost predicate Unmarked(n: Node) {
    n.techniques == [] && n.severity == "" && !n.alerting
  }

  ghost predicate InformsAt(acts: seq<Action>, k: int, pid: Uint32) {
    0 <= k < |acts| && acts[k].Touch? && acts[k].mention.entity == Proc(pid) && acts[k].mention.title != Fallback(pid)
  }

  /** The label of the first mention that names the process, else the fallback. */
  ghost predicate FirstInformative(acts: seq<Action>, pid: Uint32, title: string) {
    || (title == Fallback(pid) && forall k :: !InformsAt(acts, k, pid))
    || (exists k :: InformsAt(acts, k, pid) && acts[k].mention.title == title &&
          forall j :: j < k ==> !InformsAt(acts, j, pid))
  }

  ghost predicate CommandAt(acts: seq<Action>, k: int, pid: Uint32) {
    0 <= k < |acts| && acts[k].Touch? && acts[k].mention.entity == Proc(pid) && acts[k].mention.detail != ""
  }

  /** The last command line seen for the process, else nothing. */
  ghost predicate LastCommand(acts: seq<Action>, pid: Uint32, detail: string) {
    || (detail == "" && forall k :: !CommandAt(acts, k, pid))
    || (exists k :: CommandAt(acts, k, pid) && acts[k].mention.detail == detail &&
          forall j :: j > k ==> !CommandAt(acts, j, pid))
  }

  ghost predicate ProcessNode(acts: seq<Action>, pid: Uint32, n: Node) {
    && Unmarked(n) && n.id == Id(Proc(pid)) && n.kind == ProcessKind && n.pid == pid && n.title != ""
    && FirstInformative(acts, pid, n.title) && LastCommand(acts, pid, n.detail)
  }

  ghost predicate Titled(acts: seq<Action>) {
    forall a :: a in acts && a.Touch? && a.mention.entity.Proc? ==> a.mention.title != ""
  }

  lemma InformsStep(acts: seq<Action>, a: Action, k: int, pid: Uint32)
    ensures InformsAt(acts + [a], k, pid) <==> InformsAt(acts, k, pid) || (k == |acts| && InformsAt([a], 0, pid))
    ensures CommandAt(acts + [a], k, pid) <==> CommandAt(acts, k, pid) || (k == |acts| && CommandAt([a], 0, pid))
  {
  }

  lemma FirstStays(acts: seq<Action>, a: Action, pid: Uint32, title: string)
    requires FirstInformative(acts, pid, title) && (title != Fallback(pid) || !InformsAt([a], 0, pid))
    ensures FirstInformative(acts + [a], pid, title)
  {
    forall k
      ensures InformsAt(acts + [a], k, pid) <==> InformsAt(acts, k, pid) || (k == |acts| && InformsAt([a], 0, pid))
    {
      InformsStep(acts, a, k, pid);
    }
    if exists k :: InformsAt(acts, k, pid) {
      var k :| InformsAt(acts, k, pid) && acts[k].mention.title == title &&
               forall j :: j < k ==> !InformsAt(acts, j, pid);
      assert InformsAt(acts + [a], k, pid) && (acts + [a])[k] == acts[k];
    }
  }

  lemma FirstFound(acts: seq<Action>, a: Action, pid: Uint32)
    requires FirstInformative(acts, pid, Fallback(pid)) && InformsAt([a], 0, pid)
    ensures FirstInformative(acts + [a], pid, a.mention.title)
  {
    forall k ensures !InformsAt(acts, k, pid) {
    }
    forall k ensures InformsAt(acts + [a], k, pid) <==> k == |acts| {
      InformsStep(acts, a, k, pid);
    }
    assert (acts + [a])[|acts|] == a;
  }

  lemma LastStays(acts: seq<Action>, a: Action, pid: Uint32, detail: string)
    requires LastCommand(acts, pid, detail) && !CommandAt([a], 0, pid)
    ensures LastCommand(acts + [a], pid, detail)
  {
    forall k ensures CommandAt(acts + [a], k, pid) <==> CommandAt(acts, k, pid) {
      InformsStep(acts, a, k, pid);
    }
    if exists k :: CommandAt(acts, k, pid) {
      var k :| CommandAt(acts, k, pid) && acts[k].mention.detail == detail &&
               forall j :: j > k ==> !CommandAt(acts, j, pid);
      assert CommandAt(acts + [a], k, pid) && (acts + [a])[k] == acts[k];
    }
  }

  lemma LastFound(acts: seq<Action>, a: Action, pid: Uint32)
    requires CommandAt([a], 0, pid)
    ensures LastCommand(acts + [a], pid, a.mention.detail)
  {
    assert CommandAt(acts + [a], |acts|, pid) && (acts + [a])[|acts|] == a;
    assert forall j :: j > |acts| ==> !CommandAt(acts + [a], j, pid);
  }

  lemma NoMention(acts: seq<Action>, pid: Uint32)
    requires Proc(pid) !in MentionedIn(acts)
    ensures FirstInformative(acts, pid, Fallback(pid)) && LastCommand(acts, pid, "")
  {
    forall k ensures !InformsAt(acts, k, pid) && !CommandAt(acts, k, pid) {
      if 0 <= k < |acts| { assert acts[k] in acts; }
    }
  }

  /** One more mention of a process. */
  lemma MentionStep(acts: seq<Action>, m: Mention, pid: Uint32, n: Node)
    requires m.entity == Proc(pid) && m.title != "" && ProcessNode(acts, pid, n)
    ensures ProcessNode(acts + [Touch(m)], pid, Mentioned(n, m))
  {
    var a := Touch(m);
    assert [a][0] == a;
    if InformsAt([a], 0, pid) && n.title == Fallback(pid) {
      FirstFound(acts, a, pid);
    } else {
      FirstStays(acts, a, pid, n.title);
    }
    if m.detail != "" { LastFound(acts, a, pid); } else { LastStays(acts, a, pid, n.detail); }
  }

  lemma FirstMention(acts: seq<Action>, m: Mention, pid: Uint32)
    requires m.entity == Proc(pid) && m.title != "" && Proc(pid) !in MentionedIn(acts)
    ensures ProcessNode(acts + [Touch(m)], pid, Mentioned(Fresh(m), m))
  {
    var a := Touch(m);
    assert [a][0] == a;
    NoMention(acts, pid);
    if InformsAt([a], 0, pid) { FirstFound(acts, a, pid); } else { FirstStays(acts, a, pid, Fallback(pid)); }
    if m.detail != "" { LastFound(acts, a, pid); } else { LastStays(acts, a, pid, ""); }
  }

  lemma OtherAction(acts: seq<Action>, a: Action, pid: Uint32, n: Node)
    requires ProcessNode(acts, pid, n) && !(a.Touch? && a.mention.entity == Proc(pid))
    ensures ProcessNode(acts + [a], pid, n)
  {
    assert [a][0] == a;
    FirstStays(acts, a, pid, n.title);
    LastStays(acts, a, pid, n.detail);
  }

  /** A process node carries its first informative label and its last command line. */
  lemma {:induction false} ProcessNodesExact(acts: seq<Action>, pid: Uint32)
    requires Titled(acts) && Id(Proc(pid)) in Run(EMPTY, acts).nodes
    ensures ProcessNode(acts, pid, Run(EMPTY, acts).nodes[Id(Proc(pid))])
    decreases |acts|
  {
    var init, a := acts[..|acts| - 1], acts[|acts| - 1];
    var d, id := Run(EMPTY, init), Id(Proc(pid));
    assert acts == init + [a] && a in acts;
    NodesAreMentions(init);
    IdIn(MentionedIn(init), Proc(pid));
    if id in d.nodes { ProcessNodesExact(init, pid); }
    if a.Touch? && Id(a.mention.entity) == id {
      IdInjective(a.mention.entity, Proc(pid));
      if id in d.nodes { MentionStep(init, a.mention, pid, d.nodes[id]); } else { FirstMention(init, a.mention, pid); }
    } else {
      OtherAction(init, a, pid, d.nodes[id]);
    }
  }

  ghost predicate ObjectNode(x: Entity, n: Node) {
    match x
    case FileAt(path) => n == Node(Id(x), FileKind, BaseName(path), 0, path, [], "", false)
    case Endpoint(name) => n == Node(Id(x), NetworkKind, name, 0, name, [], "", false)
    case Proc(_) => true
  }

  /** Mentions of files and endpoints are made from their path or name alone. */
  ghost predicate PlainMentions(acts: seq<Action>) {
    forall a :: a in acts && a.Touch? ==>
      match a.mention.entity
      case FileAt(path) => a.mention == FileMention(path)
      case Endpoint(name) => a.mention == NetworkMention(name)
      case Proc(_) => true
  }

  lemma {:induction false} ObjectNodesExact(acts: seq<Action>, x: Entity)
    requires PlainMentions(acts) && Id(x) in Run(EMPTY, acts).nodes
    ensures ObjectNode(x, Run(EMPTY, acts).nodes[Id(x)])
    decreases |acts|
  {
    var init, a := acts[..|acts| - 1], acts[|acts| - 1];
    assert acts == init + [a] && a in acts;
    if Id(x) in Run(EMPTY, init).nodes { ObjectNodesExact(init, x); }
    if a.Touch? && Id(a.mention.entity) == Id(x) { IdInjective(a.mention.entity, x); }
  }

  lemma PlainConcat(a: seq<Action>, b: seq<Action>)
    requires Titled(a) && Titled(b) && PlainMentions(a) && PlainMentions(b)
    ensures Titled(a + b) && PlainMentions(a + b)
  {
    assert forall x :: x in a + b <==> x in a || x in b;
  }

  lemma OneEventPlain(e: Event)
    ensures Titled(ActionsOf(e)) && PlainMentions(ActionsOf(e))
  {
    assert Titled([Touch(Actor(e))]) && PlainMentions([Touch(Actor(e))]);
    assert Titled(ParentActions(e)) && PlainMentions(ParentActions(e));
    ObjectPlain(e);
    PlainConcat(ParentActions(e), ObjectActions(e));
    PlainConcat([Touch(Actor(e))], ParentActions(e) + ObjectActions(e));
  }

  lemma ObjectPlain(e: Event)
    ensures Titled(ObjectActions(e)) && PlainMentions(ObjectActions(e))
  {
  }

  lemma {:induction false} EventActionsPlain(es: seq<Event>)
    ensures Titled(AllActions(es)) && PlainMentions(AllActions(es))
    decreases |es|
  {
    if es != [] {
      EventActionsPlain(es[..|es| - 1]);
      OneEventPlain(es[|es| - 1]);
      PlainConcat(AllActions(es[..|es| - 1]), ActionsOf(es[|es| - 1]));
    }
  }

  // ----- detections -----

  ghost predicate Hits(a: Annotation, id: string) {
    Id(Proc(a.pid)) == id
  }

  ghost function Techniques(anns: set<Annotation>, id: string): (s: set<string>) {
    set a | a in anns && Hits(a, id) && a.technique != "" :: a.technique
  }

  /** The severity of some annotation on the node, of the highest rank there; none if no
      annotation has a ranked severity. */
  ghost predicate HighestSeverity(anns: set<Annotation>, id: string, severity: string) {
    && (forall a :: a in anns && Hits(a, id) ==> SeverityRank(a.severity) <= SeverityRank(severity))
    && (severity == "" ||
      (SeverityRank(severity) > 0 && exists a :: a in anns && Hits(a, id) && a.severity == severity))
  }

  ghost predicate Reflects(base: Node, n: Node, anns: set<Annotation>) {
    && n == base.(techniques := n.techniques, severity := n.severity, alerting := n.alerting)
    && n.techniques == Sorted(Techniques(anns, base.id))
    && (n.alerting <==> exists a :: a in anns && Hits(a, base.id))
    && HighestSeverity(anns, base.id, n.severity)
  }

  lemma TechniquesAdd(anns: set<Annotation>, id: string, a: Annotation)
    ensures Techniques(anns + {a}, id) ==
      Techniques(anns, id) + (if Hits(a, id) && a.technique != "" then {a.technique} else {})
  {
    assert a in anns + {a};
    forall t | t in Techniques(anns, id) ensures t in Techniques(anns + {a}, id) {
      var b :| b in anns && Hits(b, id) && b.technique != "" && b.technique == t;
      assert b in anns + {a};
    }
  }

  /** Appending an absent string to a sorted list and sorting again. */
  lemma AppendAndSort(s: set<string>, t: string)
    requires t !in s
    ensures SortList(Less, Sorted(s) + [t]) == Sorted(s + {t})
  {
    var list := Sorted(s) + [t];
    ElementsAppend(Sorted(s), t);
    SortedDistinct(Sorted(s));
    assert t !in Elements(Sorted(s));
    assert Distinct(list);
    LessOrders(s + {t});
    SortListLists(Less, list);
    ListUnique(Less, SortList(Less, list), Sorted(s + {t}), s + {t});
  }

  lemma TechniqueStep(anns: set<Annotation>, id: string, techniques: seq<string>, a: Annotation)
    requires techniques == Sorted(Techniques(anns, id)) && Hits(a, id)
    ensures
      (if a.technique != "" && a.technique !in techniques then SortList(Less, techniques + [a.technique])
       else techniques)
      == Sorted(Techniques(anns + {a}, id))
  {
    var before := Techniques(anns, id);
    TechniquesAdd(anns, id, a);
    assert a.technique in techniques <==> a.technique in Elements(techniques);
    if a.technique != "" && a.technique !in techniques {
      AppendAndSort(before, a.technique);
    } else {
      assert before + (if a.technique != "" then {a.technique} else {}) == before;
    }
  }

  lemma SortedDistinct(xs: seq<string>)
    requires StrictlySorted(xs)
    ensures Distinct(xs)
  {
    forall i, j | 0 <= i < j < |xs| ensures xs[i] != xs[j] { LessTotal(xs[i], xs[j]); }
  }

  lemma SeverityStep(anns: set<Annotation>, id: string, severity: string, a: Annotation)
    requires HighestSeverity(anns, id, severity) && Hits(a, id)
    ensures
      var higher := SeverityRank(a.severity) > SeverityRank(severity);
      HighestSeverity(anns + {a}, id, if higher then a.severity else severity)
  {
    if SeverityRank(a.severity) > SeverityRank(severity) {
      assert a in anns + {a};
    } else if severity != "" {
      var b :| b in anns && Hits(b, id) && b.severity == severity;
      assert b in anns + {a};
    }
  }

  lemma MarkStep(base: Node, n: Node, anns: set<Annotation>, a: Annotation)
    requires Reflects(base, n, anns) && Hits(a, base.id)
    ensures Reflects(base, Marked(n, a), anns + {a})
  {
    TechniqueStep(anns, base.id, n.techniques, a);
    SeverityStep(anns, base.id, n.severity, a);
    assert a in anns + {a};
  }

  lemma HighestMiss(anns: set<Annotation>, id: string, severity: string, a: Annotation)
    requires HighestSeverity(anns, id, severity) && !Hits(a, id)
    ensures HighestSeverity(anns + {a}, id, severity)
  {
    if severity != "" {
      var b :| b in anns && Hits(b, id) && b.severity == severity;
      assert b in anns + {a};
    }
  }

  lemma AnyHit(anns: set<Annotation>, id: string, a: Annotation)
    requires !Hits(a, id)
    ensures (exists b :: b in anns && Hits(b, id)) <==> exists b :: b in anns + {a} && Hits(b, id)
  {
    if b :| b in anns && Hits(b, id) { assert b in anns + {a}; }
  }

  lemma MissStep(base: Node, n: Node, anns: set<Annotation>, a: Annotation)
    requires Reflects(base, n, anns) && !Hits(a, base.id)
    ensures Reflects(base, n, anns + {a})
  {
    TechniquesAdd(anns, base.id, a);
    HighestMiss(anns, base.id, n.severity, a);
    AnyHit(anns, base.id, a);
  }

  lemma NothingReflected(base: Node)
    requires Unmarked(base)
    ensures Reflects(base, base, {})
  {
    assert Techniques({}, base.id) == {};
    EmptyElements(Sorted({}));
  }

  lemma AnnotatedNode(d: Data, a: Annotation, id: string)
    requires id in d.nodes
    ensures id in Annotated(d, a).nodes
    ensures Annotated(d, a).nodes[id] == if Hits(a, id) then Marked(d.nodes[id], a) else d.nodes[id]
  {
  }

  /** Each node reflects the annotations on its process, and is otherwise untouched. */
  lemma {:induction false} AnnotationsReflected(d: Data, anns: seq<Annotation>, id: string)
    requires Indexed(d) && id in d.nodes && Unmarked(d.nodes[id])
    ensures id in AnnotatedAll(d, anns).nodes
    ensures Reflects(d.nodes[id], AnnotatedAll(d, anns).nodes[id], Elements(anns))
    decreases |anns|
  {
    if anns == [] {
      NothingReflected(d.nodes[id]);
    } else {
      var init, a := anns[..|anns| - 1], anns[|anns| - 1];
      AnnotationsReflected(d, init, id);
      ElementsLast(anns);
      AnnotatedNode(AnnotatedAll(d, init), a, id);
      ReflectOne(d.nodes[id], AnnotatedAll(d, init).nodes[id], Elements(init), a);
    }
  }

  lemma ReflectOne(base: Node, n: Node, anns: set<Annotation>, a: Annotation)
    requires Reflects(base, n, anns)
    ensures Reflects(base, if Hits(a, base.id) then Marked(n, a) else n, anns + {a})
  {
    if Hits(a, base.id) { MarkStep(base, n, anns, a); } else { MissStep(base, n, anns, a); }
  }

  /** The node of an entity involved in the events, before detections are attached. */
  ghost function BaseNode(es: seq<Event>, x: Entity): (n: Node)
    requires x in AllInvolved(Elements(es))
  {
    BaseExists(es, x);
    Run(EMPTY, AllActions(es)).nodes[Id(x)]
  }

  lemma BaseExists(es: seq<Event>, x: Entity)
    ensures Id(x) in Run(EMPTY, AllActions(es)).nodes <==> x in AllInvolved(Elements(es))
  {
    NodesAreMentions(AllActions(es));
    AllMentions(es);
    IdIn(AllInvolved(Elements(es)), x);
  }

  lemma BaseUnmarked(es: seq<Event>, x: Entity)
    requires x in AllInvolved(Elements(es))
    ensures Unmarked(BaseNode(es, x)) && BaseNode(es, x).id == Id(x) && BaseNode(es, x).kind == KindOf(x)
    ensures BaseNode(es, x).pid == if x.Proc? then x.pid else 0
  {
    BaseExists(es, x);
    EventActionsPlain(es);
    if x.Proc? { ProcessNodesExact(AllActions(es), x.pid); } else { ObjectNodesExact(AllActions(es), x); }
  }

  /** Every node of the graph carries the detections on its process: the sorted set of their
      techniques and the highest of their severities. */
  lemma DetectionsExact(host: string, es: seq<Event>, anns: seq<Annotation>, n: Node) returns (x: Entity)
    requires n in Built(host, es, anns).nodes
    ensures Id(x) == n.id && x in AllInvolved(Elements(es)) && Reflects(BaseNode(es, x), n, Elements(anns))
  {
    var d := FinalData(es, anns);
    var id := NodeKey(host, es, anns, n);
    FinalIndexed(es, anns);
    x :| x in AllInvolved(Elements(es)) && Id(x) == id;
    BaseReflected(es, anns, x);
  }

  lemma BaseReflected(es: seq<Event>, anns: seq<Annotation>, x: Entity)
    requires x in AllInvolved(Elements(es))
    ensures Id(x) in FinalData(es, anns).nodes
    ensures Reflects(BaseNode(es, x), FinalData(es, anns).nodes[Id(x)], Elements(anns))
  {
    BaseExists(es, x);
    BaseUnmarked(es, x);
    RunKeepsIndex(EMPTY, AllActions(es));
    AnnotationsReflected(Run(EMPTY, AllActions(es)), anns, Id(x));
  }

  lemma NodeKey(host: string, es: seq<Event>, anns: seq<Annotation>, n: Node) returns (id: string)
    requires n in Built(host, es, anns).nodes
    ensures id == n.id && id in FinalData(es, anns).nodes && FinalData(es, anns).nodes[id] == n
  {
    var d := FinalData(es, anns);
    FinalIndexed(es, anns);
    FinishedNodes(d, host);
    assert n in Elements(Built(host, es, anns).nodes);
    id :| id in d.nodes && d.nodes[id] == n;
  }

  // ----- order independence -----

  /** Equal up to label and detail, and up to the spelling of a severity. */
  ghost predicate SameFacts(n: Node, m: Node) {
    && n.id == m.id && n.kind == m.kind && n.pid == m.pid && n.techniques == m.techniques
    && n.alerting == m.alerting && SeverityRank(n.severity) == SeverityRank(m.severity)
  }

  lemma HighestRankUnique(anns: set<Annotation>, id: string, s: string, t: string)
    requires HighestSeverity(anns, id, s) && HighestSeverity(anns, id, t)
    ensures SeverityRank(s) <= SeverityRank(t)
  {
    assert SeverityRank("") == 0;
    if s != "" {
      var a :| a in anns && Hits(a, id) && a.severity == s;
    }
  }

  lemma SameReflection(base: Node, other: Node, n: Node, m: Node, anns: set<Annotation>)
    requires base.id == other.id && base.kind == other.kind && base.pid == other.pid
    requires Reflects(base, n, anns) && Reflects(other, m, anns)
    ensures SameFacts(n, m)
  {
    HighestRankUnique(anns, base.id, n.severity, m.severity);
    HighestRankUnique(anns, base.id, m.severity, n.severity);
  }

  /** Events and annotations in any order, with any repetition, give the same edges, the same
      nodes in the same places, and the same facts on them. */
  lemma OrderIndependent(host: string, es: seq<Event>, fs: seq<Event>, anns: seq<Annotation>, bnns: seq<Annotation>)
    requires Elements(es) == Elements(fs) && Elements(anns) == Elements(bnns)
    ensures Built(host, es, anns).edges == Built(host, fs, bnns).edges
    ensures |Built(host, es, anns).nodes| == |Built(host, fs, bnns).nodes|
    ensures forall i :: 0 <= i < |Built(host, es, anns).nodes| ==>
      SameFacts(Built(host, es, anns).nodes[i], Built(host, fs, bnns).nodes[i])
  {
    var g, h := Built(host, es, anns), Built(host, fs, bnns);
    EdgesExact(host, es, anns);
    EdgesExact(host, fs, bnns);
    EdgesOrdered(AllCaused(Elements(es)));
    ListUnique(EdgeBefore, g.edges, h.edges, AllCaused(Elements(es)));
    NodesExact(host, es, anns);
    NodesExact(host, fs, bnns);
    LessOrders(IdsOf(AllInvolved(Elements(es))));
    ListUnique(Less, Ids(g), Ids(h), IdsOf(AllInvolved(Elements(es))));
    forall i | 0 <= i < |g.nodes| ensures SameFacts(g.nodes[i], h.nodes[i]) {
      assert g.nodes[i].id == Ids(g)[i] == Ids(h)[i] == h.nodes[i].id;
      var x := DetectionsExact(host, es, anns, g.nodes[i]);
      var y := DetectionsExact(host, fs, bnns, h.nodes[i]);
      IdInjective(x, y);
      BaseUnmarked(es, x);
      BaseUnmarked(fs, y);
      SameReflection(BaseNode(es, x), BaseNode(fs, y), g.nodes[i], h.nodes[i], Elements(anns));
    }
  }

  lemma LaterCommands(f: Event, i: nat, pid: Uint32)
    requires i > 0
    ensures !CommandAt(ActionsOf(f), i, pid)
  {
    var rest := ParentActions(f) + ObjectActions(f);
    if i < |ActionsOf(f)| {
      assert ActionsOf(f)[i] == rest[i - 1];
      assert rest[i - 1] in ParentActions(f) || rest[i - 1] in ObjectActions(f);
    }
  }

  /** The command line shown does depend on the order of events: it is the last event's. */
  lemma DetailFollowsOrder(es: seq<Event>, f: Event)
    requires f.process.commandLine != ""
    ensures Proc(f.process.pid) in AllInvolved(Elements(es + [f]))
    ensures BaseNode(es + [f], Proc(f.process.pid)).detail == f.process.commandLine
  {
    var fs, x := es + [f], Proc(f.process.pid);
    ElementsAppend(es, f);
    UnionAdd(InvolvedIn, Elements(es), f);
    BaseExists(fs, x);
    EventActionsPlain(fs);
    ProcessNodesExact(AllActions(fs), x.pid);
    assert fs[..|es|] == es;
    LastIsCommand(AllActions(es), f, BaseNode(fs, x).detail);
  }

  lemma LastIsCommand(acts: seq<Action>, f: Event, detail: string)
    requires f.process.commandLine != "" && LastCommand(acts + ActionsOf(f), f.process.pid, detail)
    ensures detail == f.process.commandLine
  {
    var all, k, pid := acts + ActionsOf(f), |acts|, f.process.pid;
    assert all[k] == ActionsOf(f)[0] == Touch(Actor(f));
    assert CommandAt(all, k, pid);
    forall j | j > k ensures !CommandAt(all, j, pid) {
      LaterCommands(f, j - k, pid);
      if j < |all| { assert all[j] == ActionsOf(f)[j - k]; }
    }
  }

  // ----- the graph in the events' own words -----

  function ProcText(pid: Uint32): (id: string) {
    "proc:" + FormatNat(pid)
  }

  /** A child was started. */
  predicate Started(e: Event) {
    (e.action == "exec" || e.action == "fork") && e.process.ppid > 0
  }

  /** A file, if there is one, comes before a resolved name, and that before a connection. */
  predicate ResolvedName(e: Event) {
    e.file.path == "" && e.action == "dns" && e.network.domain != ""
  }

  predicate ConnectedTo(e: Event) {
    e.file.path == "" && !(e.action == "dns" && e.network.domain != "") && e.network.dstIP != ""
  }

  /** What is said of a file, after the action on it. */
  predicate FileWord(action: string, word: string) {
    || (action == "open" && word == "opened")
    || (action == "unlink" && word == "deleted")
    || (action == "rename" && word == "renamed")
    || (action == "chmod" && word == "chmod")
    || (action !in {"open", "unlink", "rename", "chmod"} && word == "accessed")
  }

  /** An address, with its port unless that is zero. */
  predicate AddressText(ip: string, port: Uint16, text: string) {
    text == if port > 0 then ip + ":" + FormatNat(port) else ip
  }

  /** What the process did to the object of the event. */
  predicate Acted(e: Event, edge: Edge) {
    var me := ProcText(e.process.pid);
    || (e.file.path != "" && edge.source == me && edge.target == "file:" + e.file.path && FileWord(e.action, edge.kind))
    || (ResolvedName(e) && edge == Edge(me, "net:" + e.network.domain, "resolved"))
    || (ConnectedTo(e) && edge.source == me && edge.kind == "connected" && "net:" <= edge.target &&
        AddressText(e.network.dstIP, e.network.dstPort, edge.target[4..]))
  }

  /** The event is the cause of this edge. */
  predicate Tells(e: Event, edge: Edge) {
    || (Started(e) && edge == Edge(ProcText(e.process.ppid), ProcText(e.process.pid), "spawned"))
    || Acted(e, edge)
  }

  /** The event involves the entity of this id. */
  predicate Shows(e: Event, id: string) {
    || id == ProcText(e.process.pid)
    || (Started(e) && id == ProcText(e.process.ppid))
    || (e.file.path != "" && id == "file:" + e.file.path)
    || (ResolvedName(e) && id == "net:" + e.network.domain)
    || (ConnectedTo(e) && "net:" <= id && AddressText(e.network.dstIP, e.network.dstPort, id[4..]))
  }

  lemma NetText(id: string, text: string)
    ensures id == "net:" + text <==> "net:" <= id && id[4..] == text
  {
    if "net:" <= id { assert id == "net:" + id[4..]; }
  }

  lemma FileWords(action: string, word: string)
    ensures FileWord(action, word) <==> word == FileEdgeKind(action)
  {
  }

  lemma ObjectTells(e: Event, edge: Edge)
    ensures
      edge in (match Object(e)
               case None => {}
               case Some((m, kind)) => {Edge(Id(Proc(e.process.pid)), Id(m.entity), kind)})
      <==> Acted(e, edge)
  {
    if e.file.path != "" {
      FileWords(e.action, edge.kind);
    } else {
      NetText(edge.target, EndpointText(e.network.dstIP, e.network.dstPort));
    }
  }

  lemma CausedTells(e: Event, edge: Edge)
    ensures edge in CausedBy(e) <==> Tells(e, edge)
  {
    ObjectTells(e, edge);
  }

  /** The graph has an edge exactly when one of its events is the cause of it. */
  lemma EdgesInWords(host: string, es: seq<Event>, anns: seq<Annotation>, edge: Edge)
    ensures edge in Built(host, es, anns).edges <==> exists e :: e in es && Tells(e, edge)
  {
    EdgesExact(host, es, anns);
    assert edge in Built(host, es, anns).edges <==> edge in AllCaused(Elements(es));
    forall e ensures edge in CausedBy(e) <==> Tells(e, edge) { CausedTells(e, edge); }
  }

  lemma InvolvedShows(e: Event, id: string)
    ensures id in IdsOf(InvolvedIn(e)) <==> Shows(e, id)
  {
    NetText(id, EndpointText(e.network.dstIP, e.network.dstPort));
    assert Proc(e.process.pid) in InvolvedIn(e);
    if Spawns(e) { assert Proc(e.process.ppid) in InvolvedIn(e); }
    if Object(e).Some? { assert Object(e).value.0.entity in InvolvedIn(e); }
  }

  /** It has a node exactly when one of its events involves it. */
  lemma NodesInWords(host: string, es: seq<Event>, anns: seq<Annotation>, id: string)
    ensures id in Ids(Built(host, es, anns)) <==> exists e :: e in es && Shows(e, id)
  {
    NodesExact(host, es, anns);
    assert id in Ids(Built(host, es, anns)) <==> id in IdsOf(AllInvolved(Elements(es)));
    forall e ensures id in IdsOf(InvolvedIn(e)) <==> Shows(e, id) { InvolvedShows(e, id); }
    if id in IdsOf(AllInvolved(Elements(es))) {
      var x :| x in AllInvolved(Elements(es)) && Id(x) == id;
      var e :| e in Elements(es) && x in InvolvedIn(e);
      assert e in es && id in IdsOf(InvolvedIn(e));
    }
    if e :| e in es && Shows(e, id) { InvolvedIds(Elements(es), e, id); }
  }

  /** Edges come by source, those of one source by target, and those of one pair by kind. */
  lemma EdgesSorted(host: string, es: seq<Event>, anns: seq<Annotation>, i: nat, j: nat)
    requires i < j < |Built(host, es, anns).edges|
    ensures
      var a, b := Built(host, es, anns).edges[i], Built(host, es, anns).edges[j];
      || Less(a.source, b.source)
      || (a.source == b.source && Less(a.target, b.target))
      || (a.source == b.source && a.target == b.target && Less(a.kind, b.kind))
  {
    EdgesExact(host, es, anns);
    assert EdgeBefore(Built(host, es, anns).edges[i], Built(host, es, anns).edges[j]);
  }

  // ----- labels and severities -----

  /** What follows the last slash, unless nothing does. */
  lemma {:induction false} BaseNameExactly(path: string)
    ensures forall dir, base :: path == dir + "/" + base && base != "" && '/' !in base ==> BaseName(path) == base
    ensures '/' !in path || (path != "" && path[|path| - 1] == '/') ==> BaseName(path) == path
  {
    forall dir, base | path == dir + "/" + base && base != "" && '/' !in base ensures BaseName(path) == base {
      SlashBefore(dir, base);
      assert path[|dir| + 1..] == base;
    }
    if '/' !in path { NoSlash(path); }
  }

  lemma {:induction false} SlashBefore(dir: string, base: string)
    requires '/' !in base
    ensures AfterLastSlash(dir + "/" + base) == |dir| + 1
    decreases |base|
  {
    var path, n := dir + "/" + base, |base| - 1;
    if base != "" {
      SlashBefore(dir, base[..n]);
      assert path[..|path| - 1] == dir + "/" + base[..n] && path[|path| - 1] == base[n];
    }
  }

  lemma {:induction false} NoSlash(path: string)
    requires '/' !in path
    ensures AfterLastSlash(path) == 0
  {
    if path != "" { NoSlash(path[..|path| - 1]); }
  }

  /** A process is called by its name, or else by its executable's, or else by its pid. */
  lemma LabelExactly(name: string, executable: string, pid: Uint32)
    ensures name != "" ==> ProcessLabel(name, executable, pid) == name
    ensures name == "" && executable != "" ==> ProcessLabel(name, executable, pid) == BaseName(executable)
    ensures name == "" && executable == "" ==> ProcessLabel(name, executable, pid) == "pid " + FormatNat(pid)
  {
  }

  const LEVELS := ["info", "low", "medium", "high", "critical"]

  /** Severities rank as the levels are listed, in any spelling; anything else below them. */
  lemma RankExactly(s: string)
    ensures forall i :: 0 <= i < |LEVELS| && Lower(s) == LEVELS[i] ==> SeverityRank(s) == i + 1
    ensures Lower(s) !in LEVELS ==> SeverityRank(s) == 0
  {
    assert LEVELS[0] == "info" && LEVELS[1] == "low" && LEVELS[2] == "medium" && LEVELS[3] == "high";
    assert LEVELS[4] == "critical";
  }
}
