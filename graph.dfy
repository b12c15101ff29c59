/**
 * `create_network_graph` (modul1.py and modul2.py) and the part of networkx.Graph it
 * observes: nodes keyed by name with an attribute dict, undirected edges keyed by
 * their endpoint set, a re-added edge collapsing onto the existing one.
 */
module NetworkGraph {
  import opened Devices

  /** The attributes of a link, the dict `{"type": linkType, "speed": speed}`. */
  datatype LinkAttrs = LinkAttrs(linkType: string, speed: string)

  /** The attributes every link of the core carries. */
  const ETHERNET_1G := LinkAttrs("ethernet", "1Gbps")

  /** One entry of `links`: the 3-tuple `(source, target, attributes)`. */
  datatype Link = Link(source: string, target: string, attrs: LinkAttrs)

  /** A node's attribute dict: a device record, or empty for a node `add_edge` created. */
  datatype NodeAttrs = Bare | Attrs(info: DeviceInfo)

  /** The undirected edge a link adds: its set of endpoints (one endpoint for a self-loop). */
  function EdgeOf(l: Link): (e: set<string>)
    ensures l.source in e && l.target in e
    ensures |e| == if l.source == l.target then 1 else 2
  {
    {l.source, l.target}
  }

  /** `nodes` after making sure `n` is a node: an absent node is added with no attributes. */
  function WithNode(nodes: map<string, NodeAttrs>, n: string): map<string, NodeAttrs>
  {
    if n in nodes then nodes else nodes[n := Bare]
  }

  /** networkx.Graph, reduced to what the core observes. */
  class Graph {
    var nodes: map<string, NodeAttrs>
    var edges: map<set<string>, LinkAttrs>

    /** `nx.Graph()`: no nodes, no edges. */
    constructor ()
      ensures nodes == map[] && edges == map[]
    {
      nodes := map[];
      edges := map[];
    }

    /**
     * `G.add_node(n, **info)`: the node's attribute dict is updated with the record;
     * a record always has both keys, so the update replaces it whole.
     */
    method AddNode(n: string, info: DeviceInfo)
      modifies this
      ensures nodes == old(nodes)[n := Attrs(info)]
      ensures edges == old(edges)
    {
      nodes := nodes[n := Attrs(info)];
    }

    /**
     * `G.add_edge(u, v, **attrs)`: missing endpoints become nodes without attributes,
     * and the edge {u, v} (the same edge as {v, u}) takes `attrs`.
     */
    method AddEdge(u: string, v: string, attrs: LinkAttrs)
      modifies this
      ensures nodes == WithNode(WithNode(old(nodes), u), v)
      ensures edges == old(edges)[{u, v} := attrs]
    {
      nodes := WithNode(WithNode(nodes, u), v);
      edges := edges[{u, v} := attrs];
    }
  }

  /** The nodes `add_node` creates: one per device, carrying the device's record. */
  function DeviceNodes(devices: DeviceMap): map<string, NodeAttrs>
  {
    map k | k in devices.info :: Attrs(devices.info[k])
  }

  /** `nodes` after the endpoints of every link have been made nodes, in order. */
  function AddEndpoints(nodes: map<string, NodeAttrs>, links: seq<Link>): map<string, NodeAttrs>
    decreases |links|
  {
    if links == [] then nodes
    else
      var last := links[|links| - 1];
      WithNode(WithNode(AddEndpoints(nodes, links[..|links| - 1]), last.source), last.target)
  }

  /** The node map of the graph built from `devices` and `links`. */
  function NodesOf(devices: DeviceMap, links: seq<Link>): map<string, NodeAttrs>
  {
    AddEndpoints(DeviceNodes(devices), links)
  }

  /** The edge map of the graph built from `links`: a later link on the same edge wins. */
  function EdgesOf(links: seq<Link>): map<set<string>, LinkAttrs>
    decreases |links|
  {
    if links == [] then map[]
    else EdgesOf(links[..|links| - 1])[EdgeOf(links[|links| - 1]) := links[|links| - 1].attrs]
  }

  /**
   * `create_network_graph(devices, links)`: every device in dict order with `add_node`,
   * then every link in list order with `add_edge`.
   */
  method CreateNetworkGraph(devices: DeviceMap, links: seq<Link>) returns (g: Graph)
    requires Valid(devices)
    ensures fresh(g)
    ensures g.nodes == NodesOf(devices, links)
    ensures g.edges == EdgesOf(links)
  {
    g := new Graph();
    var i := 0;
    while i < |devices.keys|
      invariant 0 <= i <= |devices.keys|
      invariant g.nodes == map k | k in devices.keys[..i] :: Attrs(devices.info[k])
      invariant g.edges == map[]
    {
      var name := devices.keys[i];
      assert devices.keys[..i + 1] == devices.keys[..i] + [name];
      g.AddNode(name, devices.info[name]);
      i := i + 1;
    }
    assert devices.keys[..i] == devices.keys;
    var j := 0;
    while j < |links|
      invariant 0 <= j <= |links|
      invariant g.nodes == AddEndpoints(DeviceNodes(devices), links[..j])
      invariant g.edges == EdgesOf(links[..j])
    {
      var link := links[j];
      assert links[..j + 1][..j] == links[..j];
      g.AddEdge(link.source, link.target, link.attrs);
      j := j + 1;
    }
    assert links[..j] == links;
  }

  /** The endpoints of all links. */
  function Endpoints(links: seq<Link>): set<string>
  {
    (set i | 0 <= i < |links| :: links[i].source) + (set i | 0 <= i < |links| :: links[i].target)
  }

  /**
   * The graph's nodes are the devices and the link endpoints; every device node keeps
   * its record, and only a link endpoint that is not a device is a node without one.
   */
  lemma {:induction false} NodesOfSpec(devices: DeviceMap, links: seq<Link>)
    ensures NodesOf(devices, links).Keys == devices.info.Keys + Endpoints(links)
    ensures forall k :: k in devices.info ==> NodesOf(devices, links)[k] == Attrs(devices.info[k])
    ensures forall k :: k in NodesOf(devices, links) && k !in devices.info ==> NodesOf(devices, links)[k] == Bare
    decreases |links|
  {
    if links != [] {
      var n := |links| - 1;
      NodesOfSpec(devices, links[..n]);
      assert Endpoints(links) == Endpoints(links[..n]) + {links[n].source, links[n].target} by {
        assert forall i :: 0 <= i < n ==> links[..n][i] == links[i];
      }
    }
  }

  /** The endpoint sets of all links, the undirected pairs they join. */
  function EdgeSet(links: seq<Link>): set<set<string>>
  {
    set i | 0 <= i < |links| :: EdgeOf(links[i])
  }

  /** The graph has one edge per undirected pair of the links, and no other. */
  lemma {:induction false} EdgesOfKeys(links: seq<Link>)
    ensures EdgesOf(links).Keys == EdgeSet(links)
    decreases |links|
  {
    if links != [] {
      var n := |links| - 1;
      EdgesOfKeys(links[..n]);
      assert EdgeSet(links) == EdgeSet(links[..n]) + {EdgeOf(links[n])} by {
        assert forall i :: 0 <= i < n ==> links[..n][i] == links[i];
      }
    }
  }

  /** When every link carries the same attributes, so does every edge. */
  lemma {:induction false} EdgesUniform(links: seq<Link>, attrs: LinkAttrs)
    requires forall i :: 0 <= i < |links| ==> links[i].attrs == attrs
    ensures forall e :: e in EdgesOf(links) ==> EdgesOf(links)[e] == attrs
    decreases |links|
  {
    if links != [] {
      var n := |links| - 1;
      EdgesUniform(links[..n], attrs);
    }
  }

  /** Links without a self-loop give a graph whose every edge joins two distinct nodes. */
  lemma NoSelfLoops(links: seq<Link>)
    requires forall i :: 0 <= i < |links| ==> links[i].source != links[i].target
    ensures forall e :: e in EdgesOf(links) ==> |e| == 2
  {
    EdgesOfKeys(links);
  }

  /**
   * Two link lists with the same attributes throughout that add the same endpoint sets
   * build the same edges, whatever their order, direction or repetitions.
   */
  lemma SameEdges(links1: seq<Link>, links2: seq<Link>, attrs: LinkAttrs)
    requires forall i :: 0 <= i < |links1| ==> links1[i].attrs == attrs
    requires forall i :: 0 <= i < |links2| ==> links2[i].attrs == attrs
    requires EdgeSet(links1) == EdgeSet(links2)
    ensures EdgesOf(links1) == EdgesOf(links2)
  {
    EdgesOfKeys(links1);
    EdgesOfKeys(links2);
    EdgesUniform(links1, attrs);
    EdgesUniform(links2, attrs);
  }
}
