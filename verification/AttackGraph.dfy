/** The attack graph of a host: entities touched by its events, the causal edges between
    them, and the detections that fired on its processes. */
module AttackGraph {
  import opened Text
  import opened Model
  import opened Sorting

  datatype Kind = ProcessKind | FileKind | NetworkKind

  datatype Node = Node(
    id: string, kind: Kind, title: string, pid: Uint32, detail: string,
    techniques: seq<string>, severity: string, alerting: bool)

  datatype Edge = Edge(source: string, target: string, kind: string)

  datatype Graph = Graph(host: string, nodes: seq<Node>, edges: seq<Edge>)

  datatype Annotation = Annotation(pid: Uint32, technique: string, severity: string)

  /** The builder's maps, and its node ids in first-seen order. */
  datatype Data = Data(nodes: map<string, Node>, edges: map<string, Edge>, order: seq<string>)

  const EMPTY := Data(map[], map[], [])

  // ----- names and labels -----

  datatype Entity = Proc(pid: Uint32) | FileAt(path: string) | Endpoint(name: string)

  function Id(x: Entity): (id: string) {
    match x
    case Proc(pid) => "proc:" + FormatNat(pid)
    case FileAt(path) => "file:" + path
    case Endpoint(name) => "net:" + name
  }

  function KindOf(x: Entity): (k: Kind) {
    match x
    case Proc(_) => ProcessKind
    case FileAt(_) => FileKind
    case Endpoint(_) => NetworkKind
  }

  function Fallback(pid: Uint32): (title: string) {
    "pid " + FormatNat(pid)
  }

  /** strings.LastIndexByte(path, '/'), counted from one; zero if there is none. */
  function AfterLastSlash(path: string): (i: nat)
    ensures i <= |path|
  {
    if path == "" then 0
    else if path[|path| - 1] == '/' then |path|
    else AfterLastSlash(path[..|path| - 1])
  }

  function BaseName(path: string): (s: string)
    ensures path != "" ==> s != ""
  {
    var i := AfterLastSlash(path);
    if 0 < i < |path| then path[i..] else path
  }

  function ProcessLabel(name: string, executable: string, pid: Uint32): (s: string)
    ensures s != ""
  {
    if name != "" then name else if executable != "" then BaseName(executable) else Fallback(pid)
  }

  function EndpointText(ip: string, port: Uint16): (s: string) {
    if port == 0 then ip else ip + ":" + FormatNat(port)
  }

  function FileEdgeKind(action: string): (k: string) {
    match action
    case "open" => "opened"
    case "unlink" => "deleted"
    case "rename" => "renamed"
    case "chmod" => "chmod"
    case _ => "accessed"
  }

  // ----- the builder, one action at a time -----

  datatype Mention = Mention(entity: Entity, title: string, detail: string)

  datatype Action = Touch(mention: Mention) | Link(edge: Edge)

  /** A node as it first appears, and after another mention. */
  function Fresh(m: Mention): (n: Node) {
    Node(Id(m.entity), KindOf(m.entity), m.title, 0, "", [], "", false)
  }

  function Mentioned(n: Node, m: Mention): (n': Node) {
    match m.entity
    case Proc(pid) =>
      n.(pid := pid,
         title := if n.title == "" || n.title == Fallback(pid) then m.title else n.title,
         detail := if m.detail != "" then m.detail else n.detail)
    case _ => n.(detail := m.detail)
  }

  function Touched(d: Data, m: Mention): (d': Data) {
    var id := Id(m.entity);
    if id in d.nodes then d.(nodes := d.nodes[id := Mentioned(d.nodes[id], m)])
    else d.(nodes := d.nodes[id := Mentioned(Fresh(m), m)], order := d.order + [id])
  }

  function EdgeKey(e: Edge): (key: string) {
    e.source + "|" + e.target + "|" + e.kind
  }

  function Linked(d: Data, e: Edge): (d': Data) {
    if EdgeKey(e) in d.edges then d else d.(edges := d.edges[EdgeKey(e) := e])
  }

  function Acted(d: Data, a: Action): (d': Data) {
    match a
    case Touch(m) => Touched(d, m)
    case Link(e) => Linked(d, e)
  }

  function Run(d: Data, acts: seq<Action>): (d': Data) {
    if acts == [] then d else Acted(Run(d, acts[..|acts| - 1]), acts[|acts| - 1])
  }

  lemma {:induction false} RunConcat(d: Data, a: seq<Action>, b: seq<Action>)
    ensures Run(d, a + b) == Run(Run(d, a), b)
    decreases |b|
  {
    if b == [] {
      assert a + b == a;
    } else {
      RunConcat(d, a, b[..|b| - 1]);
      assert (a + b)[..|a + b| - 1] == a + b[..|b| - 1];
    }
  }

  // ----- what an event does -----

  function Actor(e: Event): (m: Mention) {
    var p := e.process;
    Mention(Proc(p.pid), ProcessLabel(p.name, p.executable, p.pid), p.commandLine)
  }

  predicate Spawns(e: Event) {
    e.process.ppid != 0 && (e.action == "exec" || e.action == "fork")
  }

  function Parent(e: Event): (m: Mention) {
    var p := e.process;
    Mention(Proc(p.ppid), ProcessLabel(p.parentName, p.parentExecutable, p.ppid), "")
  }

  function FileMention(path: string): (m: Mention) {
    Mention(FileAt(path), BaseName(path), path)
  }

  function NetworkMention(name: string): (m: Mention) {
    Mention(Endpoint(name), name, name)
  }

  /** What the actor acted on, and how. */
  function Object(e: Event): (r: Option<(Mention, string)>) {
    if e.file.path != "" then Some((FileMention(e.file.path), FileEdgeKind(e.action)))
    else if e.action == "dns" && e.network.domain != "" then Some((NetworkMention(e.network.domain), "resolved"))
    else if e.network.dstIP != "" then
      Some((NetworkMention(EndpointText(e.network.dstIP, e.network.dstPort)), "connected"))
    else None
  }

  function LinkTo(source: Mention, target: Mention, kind: string): (a: Action) {
    Link(Edge(Id(source.entity), Id(target.entity), kind))
  }

  function ParentActions(e: Event): (acts: seq<Action>) {
    if Spawns(e) then [Touch(Parent(e)), LinkTo(Parent(e), Actor(e), "spawned")] else []
  }

  function ObjectActions(e: Event): (acts: seq<Action>) {
    match Object(e)
    case None => []
    case Some((m, kind)) => [Touch(m), LinkTo(Actor(e), m, kind)]
  }

  function ActionsOf(e: Event): (acts: seq<Action>) {
    [Touch(Actor(e))] + (ParentActions(e) + ObjectActions(e))
  }

  function AllActions(es: seq<Event>): (acts: seq<Action>) {
    if es == [] then [] else AllActions(es[..|es| - 1]) + ActionsOf(es[|es| - 1])
  }

  // ----- annotations -----

  function SeverityRank(s: string): (r: nat) {
    match Lower(s)
    case "info" => 1
    case "low" => 2
    case "medium" => 3
    case "high" => 4
    case "critical" => 5
    case _ => 0
  }

  function Marked(n: Node, a: Annotation): (n': Node) {
    n.(alerting := true,
       techniques :=
         if a.technique != "" && a.technique !in n.techniques then SortList(Less, n.techniques + [a.technique])
         else n.techniques,
       severity := if SeverityRank(a.severity) > SeverityRank(n.severity) then a.severity else n.severity)
  }

  function Annotated(d: Data, a: Annotation): (d': Data) {
    var id := Id(Proc(a.pid));
    if id in d.nodes then d.(nodes := d.nodes[id := Marked(d.nodes[id], a)]) else d
  }

  function AnnotatedAll(d: Data, anns: seq<Annotation>): (d': Data) {
    if anns == [] then d else Annotated(AnnotatedAll(d, anns[..|anns| - 1]), anns[|anns| - 1])
  }

  // ----- the ordered result -----

  predicate NodeBefore(a: Node, b: Node) {
    Less(a.id, b.id)
  }

  predicate EdgeBefore(a: Edge, b: Edge) {
    if a.source != b.source then Less(a.source, b.source)
    else if a.target != b.target then Less(a.target, b.target)
    else Less(a.kind, b.kind)
  }

  lemma EdgesOrdered(s: set<Edge>)
    ensures Orders(EdgeBefore, s)
  {
    forall a: Edge, b: Edge
      ensures (EdgeBefore(a, b) ==> !EdgeBefore(b, a)) && (EdgeBefore(a, b) || a == b || EdgeBefore(b, a))
    {
      LessTotal(a.source, b.source);
      LessTotal(a.target, b.target);
      LessTotal(a.kind, b.kind);
    }
    forall a: Edge, b: Edge, c: Edge | EdgeBefore(a, b) && EdgeBefore(b, c) ensures EdgeBefore(a, c) {
      EdgeTransitive(a, b, c);
    }
  }

  lemma EdgeTransitive(a: Edge, b: Edge, c: Edge)
    requires EdgeBefore(a, b) && EdgeBefore(b, c)
    ensures EdgeBefore(a, c)
  {
    LessTotal(a.source, c.source);
    LessTotal(a.target, c.target);
    if a.source != b.source && b.source != c.source {
      LessTransitive(a.source, b.source, c.source);
      LessTotal(a.source, b.source);
    } else if a.source == b.source == c.source {
      if a.target != b.target && b.target != c.target {
        LessTransitive(a.target, b.target, c.target);
        LessTotal(a.target, b.target);
      } else if a.target == b.target == c.target {
        LessTransitive(a.kind, b.kind, c.kind);
      }
    }
  }

  /** Nodes carry their key as id, and order lists the keys once each. */
  ghost predicate Indexed(d: Data) {
    && (forall id :: id in d.nodes ==> d.nodes[id].id == id)
    && Distinct(d.order) && Elements(d.order) == d.nodes.Keys
  }

  function Listed(d: Data, ids: seq<string>): (ns: seq<Node>)
    requires forall i :: 0 <= i < |ids| ==> ids[i] in d.nodes
    ensures |ns| == |ids| && forall i :: 0 <= i < |ids| ==> ns[i] == d.nodes[ids[i]]
  {
    seq(|ids|, i requires 0 <= i < |ids| => d.nodes[ids[i]])
  }

  lemma OrderCovers(d: Data)
    requires Indexed(d)
    ensures forall i :: 0 <= i < |d.order| ==> d.order[i] in d.nodes
  {
    forall i | 0 <= i < |d.order| ensures d.order[i] in d.nodes { assert d.order[i] in Elements(d.order); }
  }

  ghost predicate SameIdSame(s: set<Node>) {
    forall a, b :: a in s && b in s && a.id == b.id ==> a == b
  }

  lemma NodesOrdered(s: set<Node>)
    requires SameIdSame(s)
    ensures Orders(NodeBefore, s)
  {
    forall a: Node, b: Node
      ensures (NodeBefore(a, b) ==> !NodeBefore(b, a)) && (NodeBefore(a, b) || a.id == b.id || NodeBefore(b, a))
    {
      LessTotal(a.id, b.id);
    }
    forall a: Node, b: Node, c: Node | NodeBefore(a, b) && NodeBefore(b, c) ensures NodeBefore(a, c) {
      LessTransitive(a.id, b.id, c.id);
    }
  }

  lemma ListedNodes(d: Data)
    requires Indexed(d)
    ensures forall i :: 0 <= i < |d.order| ==> d.order[i] in d.nodes
    ensures Distinct(Listed(d, d.order)) && Elements(Listed(d, d.order)) == d.nodes.Values
    ensures SameIdSame(d.nodes.Values)
  {
    OrderCovers(d);
    var ns := Listed(d, d.order);
    forall n | n in d.nodes.Values ensures n in ns {
      var id :| id in d.nodes && d.nodes[id] == n;
      assert id in Elements(d.order);
      var i :| 0 <= i < |d.order| && d.order[i] == id;
      assert ns[i] == n;
    }
  }

  ghost function Finished(d: Data, host: string): (g: Graph)
    requires Indexed(d)
  {
    ListedNodes(d);
    EdgesOrdered(d.edges.Values);
    Graph(host, SortList(NodeBefore, Listed(d, d.order)), SortedBy(EdgeBefore, d.edges.Values))
  }

  lemma TouchKeepsIndex(d: Data, m: Mention)
    requires Indexed(d)
    ensures Indexed(Touched(d, m))
  {
    var id := Id(m.entity);
    if id !in d.nodes {
      assert id !in Elements(d.order);
      ElementsConcat(d.order, [id]);
    } else {
      assert Touched(d, m).nodes.Keys == d.nodes.Keys;
    }
  }

  lemma {:induction false} RunKeepsIndex(d: Data, acts: seq<Action>)
    requires Indexed(d)
    ensures Indexed(Run(d, acts))
    decreases |acts|
  {
    if acts != [] {
      RunKeepsIndex(d, acts[..|acts| - 1]);
      var a := acts[|acts| - 1];
      if a.Touch? { TouchKeepsIndex(Run(d, acts[..|acts| - 1]), a.mention); }
    }
  }

  lemma AnnotateKeepsIndex(d: Data, a: Annotation)
    requires Indexed(d)
    ensures Indexed(Annotated(d, a))
  {
    assert Annotated(d, a).nodes.Keys == d.nodes.Keys;
  }

  lemma {:induction false} AnnotationsKeepIndex(d: Data, anns: seq<Annotation>)
    requires Indexed(d)
    ensures Indexed(AnnotatedAll(d, anns))
    decreases |anns|
  {
    if anns != [] {
      AnnotationsKeepIndex(d, anns[..|anns| - 1]);
      AnnotateKeepsIndex(AnnotatedAll(d, anns[..|anns| - 1]), anns[|anns| - 1]);
    }
  }

  // ----- the builder itself -----

  class Builder {
    var nodes: map<string, Node>
    var edges: map<string, Edge>
    var order: seq<string>

    ghost function State(): (d: Data)
      reads this
    {
      Data(nodes, edges, order)
    }

    constructor ()
      ensures State() == EMPTY
    {
      nodes, edges, order := map[], map[], [];
    }

    method Ensure(id: string, kind: Kind, title: string)
      modifies this`nodes, this`order
      ensures id in nodes
      ensures id in old(nodes) ==> nodes == old(nodes) && order == old(order)
      ensures id !in old(nodes) ==>
        nodes == old(nodes)[id := Node(id, kind, title, 0, "", [], "", false)] && order == old(order) + [id]
    {
      if id in nodes { return; }
      nodes := nodes[id := Node(id, kind, title, 0, "", [], "", false)];
      order := order + [id];
    }

    method Process(pid: Uint32, name: string, executable: string, commandLine: string) returns (id: string)
      modifies this`nodes, this`order
      ensures id == Id(Proc(pid))
      ensures State() == Touched(old(State()), Mention(Proc(pid), ProcessLabel(name, executable, pid), commandLine))
    {
      id := "proc:" + FormatNat(pid);
      Ensure(id, ProcessKind, ProcessLabel(name, executable, pid));
      var node := nodes[id].(pid := pid);
      if node.title == "" || node.title == "pid " + FormatNat(pid) {
        node := node.(title := ProcessLabel(name, executable, pid));
      }
      if commandLine != "" {
        node := node.(detail := commandLine);
      }
      nodes := nodes[id := node];
    }

    method File(path: string) returns (id: string)
      modifies this`nodes, this`order
      ensures id == Id(FileAt(path)) && State() == Touched(old(State()), FileMention(path))
    {
      id := "file:" + path;
      Ensure(id, FileKind, BaseName(path));
      nodes := nodes[id := nodes[id].(detail := path)];
    }

    method Network(name: string) returns (id: string)
      modifies this`nodes, this`order
      ensures id == Id(Endpoint(name)) && State() == Touched(old(State()), NetworkMention(name))
    {
      id := "net:" + name;
      Ensure(id, NetworkKind, name);
      nodes := nodes[id := nodes[id].(detail := name)];
    }

    method AddLink(source: string, target: string, kind: string)
      modifies this`edges
      ensures State() == Linked(old(State()), Edge(source, target, kind))
    {
      var key := source + "|" + target + "|" + kind;
      if key !in edges {
        edges := edges[key := Edge(source, target, kind)];
      }
    }

    method LinkParent(event: Event, child: string)
      requires child == Id(Actor(event).entity)
      modifies this
      ensures State() == Run(old(State()), ParentActions(event))
    {
      if event.process.ppid == 0 || (event.action != "exec" && event.action != "fork") {
        return;
      }
      var p := event.process;
      TwoActions(State(), Touch(Parent(event)), LinkTo(Parent(event), Actor(event), "spawned"));
      var parent := Process(p.ppid, p.parentName, p.parentExecutable, "");
      AddLink(parent, child, "spawned");
    }

    method LinkObject(event: Event, actor: string)
      requires actor == Id(Actor(event).entity)
      modifies this
      ensures State() == Run(old(State()), ObjectActions(event))
    {
      if event.file.path != "" {
        TwoActions(State(), Touch(FileMention(event.file.path)), ObjectActions(event)[1]);
        var file := File(event.file.path);
        AddLink(actor, file, FileEdgeKind(event.action));
      } else if event.action == "dns" && event.network.domain != "" {
        TwoActions(State(), Touch(NetworkMention(event.network.domain)), ObjectActions(event)[1]);
        var node := Network(event.network.domain);
        AddLink(actor, node, "resolved");
      } else if event.network.dstIP != "" {
        var name := EndpointText(event.network.dstIP, event.network.dstPort);
        TwoActions(State(), Touch(NetworkMention(name)), ObjectActions(event)[1]);
        var node := Network(name);
        AddLink(actor, node, "connected");
      }
    }

    method AddEvent(event: Event)
      modifies this
      ensures State() == Run(old(State()), ActionsOf(event))
    {
      var p := event.process;
      RunConcat(State(), [Touch(Actor(event))], ParentActions(event) + ObjectActions(event));
      OneAction(State(), Touch(Actor(event)));
      var actor := Process(p.pid, p.name, p.executable, p.commandLine);
      RunConcat(State(), ParentActions(event), ObjectActions(event));
      LinkParent(event, actor);
      LinkObject(event, actor);
    }

    method Annotate(ann: Annotation)
      modifies this`nodes
      ensures State() == Annotated(old(State()), ann)
    {
      var id := "proc:" + FormatNat(ann.pid);
      if id !in nodes { return; }
      var node := nodes[id].(alerting := true);
      if ann.technique != "" && ann.technique !in node.techniques {
        node := node.(techniques := SortList(Less, node.techniques + [ann.technique]));
      }
      if SeverityRank(ann.severity) > SeverityRank(node.severity) {
        node := node.(severity := ann.severity);
      }
      nodes := nodes[id := node];
    }

    method AddEvents(es: seq<Event>)
      modifies this
      ensures State() == Run(old(State()), AllActions(es))
    {
      ghost var before := State();
      for i := 0 to |es|
        invariant State() == Run(before, AllActions(es[..i]))
      {
        ActionsStep(before, es, i);
        AddEvent(es[i]);
      }
      assert es[..|es|] == es;
    }

    method AnnotateAll(anns: seq<Annotation>)
      modifies this
      ensures State() == AnnotatedAll(old(State()), anns)
    {
      ghost var before := State();
      for i := 0 to |anns|
        invariant State() == AnnotatedAll(before, anns[..i])
      {
        AnnotationStep(before, anns, i);
        Annotate(anns[i]);
      }
      assert anns[..|anns|] == anns;
    }

    method Finish(host: string) returns (graph: Graph)
      requires Indexed(State())
      ensures graph == Finished(State(), host)
    {
      ListedNodes(State());
      EdgesOrdered(edges.Values);
      var ns: seq<Node> := [];
      for i := 0 to |order|
        invariant |ns| == i && forall j :: 0 <= j < i ==> ns[j] == nodes[order[j]]
      {
        ns := ns + [nodes[order[i]]];
      }
      assert ns == Listed(State(), order);
      var es := SortSet(EdgeBefore, edges.Values);
      graph := Graph(host, SortList(NodeBefore, ns), es);
    }
  }

  lemma ActionsStep(d: Data, es: seq<Event>, i: nat)
    requires i < |es|
    ensures Run(d, AllActions(es[..i + 1])) == Run(Run(d, AllActions(es[..i])), ActionsOf(es[i]))
  {
    assert es[..i + 1][..i] == es[..i];
    RunConcat(d, AllActions(es[..i]), ActionsOf(es[i]));
  }

  lemma AnnotationStep(d: Data, anns: seq<Annotation>, i: nat)
    requires i < |anns|
    ensures AnnotatedAll(d, anns[..i + 1]) == Annotated(AnnotatedAll(d, anns[..i]), anns[i])
  {
    assert anns[..i + 1][..i] == anns[..i];
  }

  lemma OneAction(d: Data, a: Action)
    ensures Run(d, [a]) == Acted(d, a)
  {
    assert [a][..0] == [];
  }

  lemma TwoActions(d: Data, a: Action, b: Action)
    ensures Run(d, [a, b]) == Acted(Acted(d, a), b)
  {
    OneAction(d, a);
    assert [a, b][..1] == [a];
  }

  ghost function Built(host: string, es: seq<Event>, anns: seq<Annotation>): (g: Graph) {
    RunKeepsIndex(EMPTY, AllActions(es));
    AnnotationsKeepIndex(Run(EMPTY, AllActions(es)), anns);
    Finished(AnnotatedAll(Run(EMPTY, AllActions(es)), anns), host)
  }

  method Build(host: string, es: seq<Event>, anns: seq<Annotation>) returns (graph: Graph)
    ensures graph == Built(host, es, anns)
  {
    var b := new Builder();
    b.AddEvents(es);
    b.AnnotateAll(anns);
    RunKeepsIndex(EMPTY, AllActions(es));
    AnnotationsKeepIndex(Run(EMPTY, AllActions(es)), anns);
    graph := b.Finish(host);
  }
}
