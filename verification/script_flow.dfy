/**
 * Loading a script's behaviour graph into the node editor: every behaviour
 * node of the script becomes an editor node, every flow output becomes an edge
 * to the node it triggers, and every linked parameter becomes an edge from the
 * node whose output it reads.
 */
module ScriptFlow {
  import opened Wrappers

  /** One `[key, value]` pair of `Object.entries`, in the object's key order. */
  datatype Entry<V> = Entry(key: string, value: V)

  datatype Position = Position(x: real, y: real)

  const Origin := Position(0.0, 0.0)

  /**
   * A parameter value: a primitive (its `typeof` is not "object"), an object
   * without a `link` field, or a link to another node's output socket.
   */
  datatype ParamValue =
    | Primitive(text: string)
    | Record
    | Linked(linkName: string, socket: string)

  datatype Extras = Extras(script: Option<string>, position: Option<Position>)

  /** A property of the behaviour extension: a behaviour node or anything else. */
  datatype Property =
    | BehaviorNode(
        name: string,
        nodeType: string,
        parameters: Option<seq<Entry<ParamValue>>>,
        flow: Option<seq<Entry<string>>>,
        extras: Extras)
    | OtherProperty

  datatype FlowNode = FlowNode(id: string, nodeType: string, data: seq<Entry<ParamValue>>, position: Position)

  /** The endpoints of an editor edge, before it receives its id. */
  datatype Link = Link(source: string, sourceHandle: string, target: string, targetHandle: string)

  /** An editor edge; `id` stands for the fresh random id each edge receives. */
  datatype Edge = Edge(id: nat, source: string, sourceHandle: string, target: string, targetHandle: string)

  datatype Flow = Flow(nodes: seq<FlowNode>, edges: seq<Edge>)

  /** The nodes and edge endpoints collected from the property list, in push order. */
  datatype Graph = Graph(nodes: seq<FlowNode>, links: seq<Link>)

  const FlowHandle := "flow"

  /** Whether a property shows up in the editor of script `scriptId`. */
  predicate Emitted(p: Property, scriptId: string) {
    p.BehaviorNode? && p.extras.script == Some(scriptId)
  }

  /**
   * The editor node of a behaviour node: its name as id, its type, its
   * parameters as data (none gives an empty map) and its position (none gives
   * the origin).
   */
  function NodeOf(p: Property): (r: FlowNode)
    requires p.BehaviorNode?
    ensures r.id == p.name && r.nodeType == p.nodeType
    ensures p.parameters.Some? ==> r.data == p.parameters.value
    ensures p.parameters.None? ==> r.data == []
    ensures p.extras.position.Some? ==> r.position == p.extras.position.value
    ensures p.extras.position.None? ==> r.position == Position(0.0, 0.0)
  {
    FlowNode(p.name, p.nodeType, p.parameters.GetOr([]), p.extras.position.GetOr(Origin))
  }

  /** The editor nodes of a list of behaviour nodes, one each, in order. */
  function NodesOf(ps: seq<Property>): (r: seq<FlowNode>)
    requires forall k :: 0 <= k < |ps| ==> ps[k].BehaviorNode?
    ensures |r| == |ps|
    ensures forall k :: 0 <= k < |ps| ==> r[k] == NodeOf(ps[k])
  {
    seq(|ps|, k requires 0 <= k < |ps| && ps[k].BehaviorNode? => NodeOf(ps[k]))
  }

  lemma NodesOfAppend(a: seq<Property>, b: seq<Property>)
    requires forall k :: 0 <= k < |a| ==> a[k].BehaviorNode?
    requires forall k :: 0 <= k < |b| ==> b[k].BehaviorNode?
    ensures NodesOf(a + b) == NodesOf(a) + NodesOf(b)
  {
  }

  /** The emitted properties, in list order. */
  function EmittedOf(props: seq<Property>, scriptId: string): (r: seq<Property>)
    ensures |r| <= |props|
    ensures forall k :: 0 <= k < |r| ==> Emitted(r[k], scriptId)
  {
    if |props| == 0 then []
    else (if Emitted(props[0], scriptId) then [props[0]] else []) + EmittedOf(props[1..], scriptId)
  }

  /** The emitted properties are exactly the behaviour nodes of the script in the list. */
  lemma {:induction false} EmittedOfMembers(props: seq<Property>, scriptId: string)
    ensures forall p :: p in EmittedOf(props, scriptId) <==> p in props && Emitted(p, scriptId)
    decreases |props|
  {
    if |props| > 0 {
      EmittedOfMembers(props[1..], scriptId);
      assert props == [props[0]] + props[1..];
    }
  }

  /** The number of parameters holding a link. */
  function LinkedCount(params: seq<Entry<ParamValue>>): (n: nat)
    ensures n <= |params|
  {
    if |params| == 0 then 0
    else (if params[0].value.Linked? then 1 else 0) + LinkedCount(params[1..])
  }

  /** The number of edges a property contributes when it is emitted. */
  function EdgesOfNode(p: Property): nat
    requires p.BehaviorNode?
  {
    |p.flow.GetOr([])| + LinkedCount(p.parameters.GetOr([]))
  }

  /** The number of edges of a whole property list: a sum over emitted nodes. */
  function EdgeTotal(props: seq<Property>, scriptId: string): nat {
    if |props| == 0 then 0
    else (if Emitted(props[0], scriptId) then EdgesOfNode(props[0]) else 0) + EdgeTotal(props[1..], scriptId)
  }

  /** The links for the flow outputs of node `name`: output `key` triggers node `value`. */
  function FlowLinks(name: string, flow: seq<Entry<string>>): (r: seq<Link>)
    ensures |r| == |flow|
    ensures forall k :: 0 <= k < |flow| ==>
      && r[k].source == name && r[k].sourceHandle == flow[k].key
      && r[k].target == flow[k].value && r[k].targetHandle == FlowHandle
  {
    seq(|flow|, k requires 0 <= k < |flow| => Link(name, flow[k].key, flow[k].value, FlowHandle))
  }

  /** The link for a linked parameter `key` of node `name`. */
  predicate IsParamLink(l: Link, name: string, param: Entry<ParamValue>) {
    && param.value.Linked?
    && l.source == param.value.linkName
    && l.sourceHandle == param.value.socket
    && l.target == name
    && l.targetHandle == param.key
  }

  /** The links for the linked parameters of node `name`, in entry order. */
  function ParamLinks(name: string, params: seq<Entry<ParamValue>>): (r: seq<Link>)
    ensures |r| == LinkedCount(params)
  {
    if |params| == 0 then []
    else
      match params[0].value
      case Linked(link, socket) => [Link(link, socket, name, params[0].key)] + ParamLinks(name, params[1..])
      case _ => ParamLinks(name, params[1..])
  }

  /** Every parameter link comes from a linked parameter of the node. */
  lemma {:induction false} ParamLinksSound(name: string, params: seq<Entry<ParamValue>>, k: nat)
    requires k < |ParamLinks(name, params)|
    ensures exists j :: 0 <= j < |params| && IsParamLink(ParamLinks(name, params)[k], name, params[j])
    decreases |params|
  {
    var r := ParamLinks(name, params);
    if params[0].value.Linked? && k == 0 {
      assert IsParamLink(r[0], name, params[0]);
    } else {
      var k' := if params[0].value.Linked? then k - 1 else k;
      ParamLinksSound(name, params[1..], k');
      var j :| 0 <= j < |params[1..]| && IsParamLink(ParamLinks(name, params[1..])[k'], name, params[1..][j]);
      assert r[k] == ParamLinks(name, params[1..])[k'];
      assert params[1..][j] == params[j + 1];
    }
  }

  /** Every linked parameter of the node gives a link. */
  lemma {:induction false} ParamLinksComplete(name: string, params: seq<Entry<ParamValue>>, j: nat)
    requires j < |params| && params[j].value.Linked?
    ensures exists k :: 0 <= k < |ParamLinks(name, params)| && IsParamLink(ParamLinks(name, params)[k], name, params[j])
    decreases |params|
  {
    var r := ParamLinks(name, params);
    if j == 0 {
      assert IsParamLink(r[0], name, params[0]);
    } else {
      var shift := if params[0].value.Linked? then 1 else 0;
      ParamLinksComplete(name, params[1..], j - 1);
      var rest := ParamLinks(name, params[1..]);
      var k :| 0 <= k < |rest| && IsParamLink(rest[k], name, params[1..][j - 1]);
      assert r[k + shift] == rest[k];
    }
  }

  /** The links one emitted node contributes: its flow links, then its parameter links. */
  function NodeLinks(p: Property): (r: seq<Link>)
    requires p.BehaviorNode?
    ensures |r| == EdgesOfNode(p)
  {
    FlowLinks(p.name, p.flow.GetOr([])) + ParamLinks(p.name, p.parameters.GetOr([]))
  }

  /** The node and links one property adds. */
  function Step(p: Property, scriptId: string): Graph {
    if Emitted(p, scriptId) then Graph([NodeOf(p)], NodeLinks(p)) else Graph([], [])
  }

  /** Two graphs one after the other, as `forEach` over a concatenated list builds them. */
  function Join(a: Graph, b: Graph): Graph {
    Graph(a.nodes + b.nodes, a.links + b.links)
  }

  /** The nodes and links `loadFlow` pushes, property by property. */
  function Collect(props: seq<Property>, scriptId: string): Graph
    decreases |props|
  {
    if |props| == 0 then Graph([], [])
    else Join(Step(props[0], scriptId), Collect(props[1..], scriptId))
  }

  /** Edges with fresh ids `nextId`, `nextId + 1`, ... in push order. */
  function Numbered(links: seq<Link>, nextId: nat): (r: seq<Edge>)
    ensures |r| == |links|
  {
    seq(|links|, k requires 0 <= k < |links| =>
      Edge(nextId + k, links[k].source, links[k].sourceHandle, links[k].target, links[k].targetHandle))
  }

  /**
   * `loadFlow`: one editor node per emitted property, in list order, and the
   * edges of each emitted node; edge ids are fresh, numbered from `nextId`.
   */
  function LoadFlow(props: seq<Property>, scriptId: string, nextId: nat): (r: Flow)
    ensures forall k :: 0 <= k < |r.edges| ==> r.edges[k].id == nextId + k
  {
    var g := Collect(props, scriptId);
    Flow(g.nodes, Numbered(g.links, nextId))
  }

  /** The number of edges is the sum, over the emitted nodes, of their flow outputs and linked parameters. */
  lemma LoadFlowEdgeCount(props: seq<Property>, scriptId: string, nextId: nat)
    ensures |LoadFlow(props, scriptId, nextId).edges| == EdgeTotal(props, scriptId)
  {
    CollectLinkCount(props, scriptId);
  }

  lemma {:induction false} CollectLinkCount(props: seq<Property>, scriptId: string)
    ensures |Collect(props, scriptId).links| == EdgeTotal(props, scriptId)
    decreases |props|
  {
    if |props| > 0 {
      CollectLinkCount(props[1..], scriptId);
    }
  }

  /** One editor node per emitted property, in list order. */
  lemma LoadFlowNodes(props: seq<Property>, scriptId: string, nextId: nat)
    ensures LoadFlow(props, scriptId, nextId).nodes == NodesOf(EmittedOf(props, scriptId))
  {
    CollectNodes(props, scriptId);
  }

  lemma {:induction false} CollectNodes(props: seq<Property>, scriptId: string)
    ensures Collect(props, scriptId).nodes == NodesOf(EmittedOf(props, scriptId))
    decreases |props|
  {
    if |props| > 0 {
      CollectNodes(props[1..], scriptId);
      var head := if Emitted(props[0], scriptId) then [props[0]] else [];
      var rest := EmittedOf(props[1..], scriptId);
      assert EmittedOf(props, scriptId) == head + rest;
      NodesOfAppend(head, rest);
      assert NodesOf(head) == Step(props[0], scriptId).nodes;
      assert Collect(props, scriptId).nodes == Step(props[0], scriptId).nodes + Collect(props[1..], scriptId).nodes;
    }
  }

  lemma JoinAssociative(x: Graph, y: Graph, z: Graph)
    ensures Join(x, Join(y, z)) == Join(Join(x, y), z)
  {
    assert x.nodes + (y.nodes + z.nodes) == (x.nodes + y.nodes) + z.nodes;
    assert x.links + (y.links + z.links) == (x.links + y.links) + z.links;
  }

  lemma JoinEmpty(x: Graph)
    ensures Join(Graph([], []), x) == x && Join(x, Graph([], [])) == x
  {
    assert [] + x.nodes == x.nodes && [] + x.links == x.links;
    assert x.nodes + [] == x.nodes && x.links + [] == x.links;
  }

  /** Collecting a concatenated list is collecting its halves one after the other. */
  lemma {:induction false} CollectAppend(a: seq<Property>, b: seq<Property>, scriptId: string)
    ensures Collect(a + b, scriptId) == Join(Collect(a, scriptId), Collect(b, scriptId))
    decreases |a|
  {
    var rest := Collect(b, scriptId);
    if |a| == 0 {
      assert a + b == b;
      assert Collect(a, scriptId) == Graph([], []);
      JoinEmpty(rest);
    } else {
      var step, mid := Step(a[0], scriptId), Collect(a[1..], scriptId);
      assert (a + b)[0] == a[0];
      assert (a + b)[1..] == a[1..] + b;
      assert Collect(a, scriptId) == Join(step, mid);
      assert Collect(a + b, scriptId) == Join(step, Collect(a[1..] + b, scriptId));
      CollectAppend(a[1..], b, scriptId);
      JoinAssociative(step, mid, rest);
    }
  }

  /** Numbering a concatenation numbers the second part after the first. */
  lemma NumberedAppend(x: seq<Link>, y: seq<Link>, nextId: nat)
    ensures Numbered(x + y, nextId) == Numbered(x, nextId) + Numbered(y, nextId + |x|)
  {
    var l, r := Numbered(x + y, nextId), Numbered(x, nextId) + Numbered(y, nextId + |x|);
    assert |l| == |r|;
    forall k | 0 <= k < |l|
      ensures l[k] == r[k]
    {
      if k >= |x| {
        assert (x + y)[k] == y[k - |x|];
      }
    }
  }

  /** Two flows one after the other. */
  function Concat(a: Flow, b: Flow): Flow {
    Flow(a.nodes + b.nodes, a.edges + b.edges)
  }

  /**
   * Loading a concatenated list is loading its halves one after the other,
   * the second half's edge ids following the first half's.
   */
  lemma LoadFlowAppend(a: seq<Property>, b: seq<Property>, scriptId: string, nextId: nat)
    ensures LoadFlow(a + b, scriptId, nextId)
      == Concat(LoadFlow(a, scriptId, nextId), LoadFlow(b, scriptId, nextId + |LoadFlow(a, scriptId, nextId).edges|))
  {
    var ga, gb := Collect(a, scriptId), Collect(b, scriptId);
    CollectAppend(a, b, scriptId);
    NumberedAppend(ga.links, gb.links, nextId);
  }

  /**
   * A single property: an emitted one yields its node and its edges, any
   * other property yields nothing.
   */
  lemma LoadFlowSingle(p: Property, scriptId: string, nextId: nat)
    ensures Emitted(p, scriptId) ==>
      LoadFlow([p], scriptId, nextId) == Flow([NodeOf(p)], Numbered(NodeLinks(p), nextId))
    ensures !Emitted(p, scriptId) ==> LoadFlow([p], scriptId, nextId) == Flow([], [])
  {
    assert [p][1..] == [];
    var step := Step(p, scriptId);
    assert Collect([p], scriptId) == Join(step, Collect([], scriptId));
    JoinEmpty(step);
  }

  /** A property that is not emitted leaves the nodes and edges of the rest unchanged. */
  lemma SkippedPropertyIsInvisible(a: seq<Property>, p: Property, b: seq<Property>, scriptId: string, nextId: nat)
    requires !Emitted(p, scriptId)
    ensures LoadFlow(a + [p] + b, scriptId, nextId) == LoadFlow(a + b, scriptId, nextId)
  {
    var rest := Collect(b, scriptId);
    assert ([p] + b)[0] == p && ([p] + b)[1..] == b;
    assert Collect([p] + b, scriptId) == Join(Graph([], []), rest);
    JoinEmpty(rest);
    assert a + [p] + b == a + ([p] + b);
    CollectAppend(a, [p] + b, scriptId);
    CollectAppend(a, b, scriptId);
  }

  /**
   * The flow edges of an emitted node: flow entry k, `(key, target)`, gives
   * its edge k, from the node's `key` output to `target`'s "flow" input.
   */
  lemma NodeFlowEdges(p: Property, nextId: nat, k: nat)
    requires p.BehaviorNode? && k < |p.flow.GetOr([])|
    ensures var flow := p.flow.GetOr([]);
      Numbered(NodeLinks(p), nextId)[k] == Edge(nextId + k, p.name, flow[k].key, flow[k].value, FlowHandle)
  {
    var flow := p.flow.GetOr([]);
    var fl := FlowLinks(p.name, flow);
    assert NodeLinks(p)[k] == fl[k];
  }

  /**
   * The parameter edges of an emitted node follow its flow edges; each is the
   * edge of a linked parameter, and each linked parameter has one.
   */
  lemma NodeParamEdges(p: Property)
    requires p.BehaviorNode?
    ensures var flow := p.flow.GetOr([]);
      var params := p.parameters.GetOr([]);
      var r := NodeLinks(p);
      && (forall k :: |flow| <= k < |r| ==>
            exists j :: 0 <= j < |params| && IsParamLink(r[k], p.name, params[j]))
      && (forall j :: 0 <= j < |params| && params[j].value.Linked? ==>
            exists k :: |flow| <= k < |r| && IsParamLink(r[k], p.name, params[j]))
  {
    var flow := p.flow.GetOr([]);
    var params := p.parameters.GetOr([]);
    var fl := FlowLinks(p.name, flow);
    var pl := ParamLinks(p.name, params);
    var r := NodeLinks(p);
    forall k | |flow| <= k < |r|
      ensures exists j :: 0 <= j < |params| && IsParamLink(r[k], p.name, params[j])
    {
      ParamLinksSound(p.name, params, k - |fl|);
      assert r[k] == pl[k - |fl|];
    }
    forall j | 0 <= j < |params| && params[j].value.Linked?
      ensures exists k :: |flow| <= k < |r| && IsParamLink(r[k], p.name, params[j])
    {
      ParamLinksComplete(p.name, params, j);
      var k :| 0 <= k < |pl| && IsParamLink(pl[k], p.name, params[j]);
      assert r[|fl| + k] == pl[k];
    }
  }
}
