/**
 * The graph store: a weighted graph kept as a dict of dicts
 * (source -> target -> weight), a dense node index in insertion order and
 * an edge counter. Undirected graphs store every edge in both directions.
 */
module Graph {
  import opened Wrappers
  import opened Vectors
  import opened OrderedDicts

  type NodeId = string

  /** One node's outgoing edges: target -> weight, in insertion order. */
  type Neighbors = Dict<NodeId, real>

  type Adjacency = map<NodeId, Neighbors>

  /** A (source, target, weight) triple as get_edges reports it. */
  type Edge = (NodeId, NodeId, real)

  /** The weight add_edge uses when none is given. */
  const DefaultWeight: real := 1.0

  /** `adjacency.get(u, {})`. */
  function NeighborsOf(adj: Adjacency, u: NodeId): Neighbors {
    if u in adj then adj[u] else []
  }

  predicate HasEdge(adj: Adjacency, u: NodeId, v: NodeId) {
    u in adj && HasKey(adj[u], v)
  }

  function Weight(adj: Adjacency, u: NodeId, v: NodeId): real
    requires HasEdge(adj, u, v)
  {
    Get(adj[u], v)
  }

  /** The weight of u -> v, or 0 when there is no such edge. */
  function WeightOr0(adj: Adjacency, u: NodeId, v: NodeId): real {
    if HasEdge(adj, u, v) then Weight(adj, u, v) else 0.0
  }

  /** Every edge is stored in both directions with the same weight. */
  ghost predicate Symmetric(adj: Adjacency) {
    forall u, v :: HasEdge(adj, u, v) ==> HasEdge(adj, v, u) && Weight(adj, v, u) == Weight(adj, u, v)
  }

  ghost predicate Distinct(s: seq<NodeId>) {
    forall i, j :: 0 <= i < j < |s| ==> s[i] != s[j]
  }

  /** The edges leaving `u`, in the order of its dict. */
  function EdgesOf(u: NodeId, d: Neighbors): (r: seq<Edge>)
    ensures |r| == |d| && forall k :: 0 <= k < |d| ==> r[k] == (u, d[k].0, d[k].1)
  {
    seq(|d|, k requires 0 <= k < |d| => (u, d[k].0, d[k].1))
  }

  /** The edges leaving the nodes of `order`, node by node. */
  function EdgeList(order: seq<NodeId>, adj: Adjacency): seq<Edge> {
    if order == [] then []
    else
      var u := order[|order| - 1];
      EdgeList(order[..|order| - 1], adj) + EdgesOf(u, NeighborsOf(adj, u))
  }

  /** Sum over the nodes of `order` of the weight of their edge into `v`. */
  function InWeight(order: seq<NodeId>, adj: Adjacency, v: NodeId): real {
    if order == [] then 0.0
    else InWeight(order[..|order| - 1], adj, v) + WeightOr0(adj, order[|order| - 1], v)
  }

  /** Sum over the nodes of `order` of the weight of the edge from `u` into them. */
  function OutWeight(order: seq<NodeId>, adj: Adjacency, u: NodeId): real {
    if order == [] then 0.0
    else OutWeight(order[..|order| - 1], adj, u) + WeightOr0(adj, u, order[|order| - 1])
  }

  /** Sum over the nodes of `order` of the value `d` gives them (0 when absent). */
  function LookupSum(order: seq<NodeId>, d: Neighbors): real {
    if order == [] then 0.0
    else LookupSum(order[..|order| - 1], d) + GetOr(d, order[|order| - 1], 0.0)
  }

  /** The edge list only depends on the dicts of the nodes it walks. */
  lemma {:induction false} EdgeListFrame(order: seq<NodeId>, adj: Adjacency, adj': Adjacency)
    requires forall u :: u in order ==> NeighborsOf(adj', u) == NeighborsOf(adj, u)
    ensures EdgeList(order, adj') == EdgeList(order, adj)
  {
    if order != [] {
      EdgeListFrame(order[..|order| - 1], adj, adj');
    }
  }

  /** Replacing one node's dict changes the edge count by the difference in size. */
  lemma {:induction false} EdgeListUpdateLength(order: seq<NodeId>, adj: Adjacency, u: NodeId, d: Neighbors)
    requires Distinct(order)
    ensures |EdgeList(order, adj[u := d])| ==
      |EdgeList(order, adj)| + (if u in order then |d| - |NeighborsOf(adj, u)| else 0)
  {
    if order != [] {
      var init := order[..|order| - 1];
      assert Distinct(init);
      assert order == init + [order[|order| - 1]];
      EdgeListUpdateLength(init, adj, u, d);
    }
  }

  /** An edge list holds exactly the stored edges of the walked nodes, with their weights. */
  lemma {:induction false} EdgeListMembers(order: seq<NodeId>, adj: Adjacency, e: Edge)
    requires forall u :: u in adj ==> DistinctKeys(adj[u])
    ensures e in EdgeList(order, adj) <==>
      e.0 in order && HasEdge(adj, e.0, e.1) && Weight(adj, e.0, e.1) == e.2
  {
    if order != [] {
      var init, u := order[..|order| - 1], order[|order| - 1];
      assert order == init + [u];
      EdgeListMembers(init, adj, e);
      var d := NeighborsOf(adj, u);
      if e in EdgesOf(u, d) {
        var k :| 0 <= k < |d| && EdgesOf(u, d)[k] == e;
        IndexOfUnique(d, k);
      }
      if e.0 == u && HasEdge(adj, e.0, e.1) && Weight(adj, e.0, e.1) == e.2 {
        var k := IndexOf(d, e.1);
        assert EdgesOf(u, d)[k] == e;
      }
    }
  }

  /** Sum over distinct nodes of the weight `d` gives each is the sum of `d`'s values,
      once `d`'s keys are all among those nodes. */
  lemma {:induction false} LookupSumIsValueSum(order: seq<NodeId>, d: Neighbors)
    requires Distinct(order) && DistinctKeys(d)
    requires forall k :: 0 <= k < |d| ==> d[k].0 in order
    ensures LookupSum(order, d) == Sum(Values(d))
    decreases |d|
  {
    if d == [] {
      LookupSumEmpty(order);
    } else {
      var d', last := d[..|d| - 1], d[|d| - 1];
      assert Values(d) == Values(d') + [last.1];
      SumAppend(Values(d'), last.1);
      LookupSumIsValueSum(order, d');
      LookupSumSplit(order, d', last.0, last.1);
      assert d' + [last] == d;
    }
  }

  lemma {:induction false} LookupSumEmpty(order: seq<NodeId>)
    ensures LookupSum(order, []) == 0.0
  {
    if order != [] {
      LookupSumEmpty(order[..|order| - 1]);
    }
  }

  /** Appending a new key `k` with value `w` adds `w` to the sum over the nodes, once
      `k` is among them exactly once. */
  lemma {:induction false} LookupSumSplit(order: seq<NodeId>, d: Neighbors, k: NodeId, w: real)
    requires Distinct(order) && DistinctKeys(d + [(k, w)])
    ensures LookupSum(order, d + [(k, w)]) == LookupSum(order, d) + (if k in order then w else 0.0)
  {
    if order != [] {
      var init, u := order[..|order| - 1], order[|order| - 1];
      assert order == init + [u];
      assert Distinct(init);
      LookupSumSplit(init, d, k, w);
      var d2 := d + [(k, w)];
      assert DistinctKeys(d) by {
        forall i, j | 0 <= i < j < |d| ensures d[i].0 != d[j].0 {
          assert d2[i] == d[i] && d2[j] == d[j];
        }
      }
      assert Keys(d2) == Keys(d) + [k];
      if u == k {
        IndexOfUnique(d2, |d|);
        forall i | 0 <= i < |d| ensures Keys(d)[i] != k {
          assert d2[i] == d[i] && d2[|d|] == (k, w);
        }
        assert !HasKey(d, k);
      } else if HasKey(d, u) {
        var i := IndexOf(d, u);
        IndexOfUnique(d2, i);
      }
    }
  }

  /** The weight leaving `u` towards the nodes of `order` is what `u`'s dict gives them. */
  lemma {:induction false} OutWeightLookup(order: seq<NodeId>, adj: Adjacency, u: NodeId)
    ensures OutWeight(order, adj, u) == LookupSum(order, NeighborsOf(adj, u))
  {
    if order != [] {
      OutWeightLookup(order[..|order| - 1], adj, u);
    }
  }

  /** In a symmetric graph the weight flowing into a node equals the weight leaving it. */
  lemma {:induction false} InWeightSymmetric(order: seq<NodeId>, adj: Adjacency, v: NodeId)
    requires Symmetric(adj)
    ensures InWeight(order, adj, v) == OutWeight(order, adj, v)
  {
    if order != [] {
      var u := order[|order| - 1];
      InWeightSymmetric(order[..|order| - 1], adj, v);
      if HasEdge(adj, u, v) {
        assert HasEdge(adj, v, u);
      } else {
        assert !HasEdge(adj, v, u);
      }
    }
  }

  /** The two index maps are mutual inverses over 0..n-1, node i being `nodes[i]`, and
      the nodes are exactly the keys of the dict of dicts. */
  ghost predicate IndexMaps(adj: Adjacency, nodeToIdx: map<NodeId, int>, idxToNode: map<int, NodeId>, nodes: seq<NodeId>) {
    && |adj| == |nodes|
    && (forall u :: u in nodeToIdx <==> u in adj)
    && (forall i :: i in idxToNode <==> 0 <= i < |nodes|)
    && (forall i :: 0 <= i < |nodes| ==> nodes[i] in nodeToIdx && nodeToIdx[nodes[i]] == i && idxToNode[i] == nodes[i])
    && (forall u :: u in nodeToIdx ==> 0 <= nodeToIdx[u] < |nodes| && nodes[nodeToIdx[u]] == u)
  }

  /** Every node's dict has distinct keys and every target is a node. */
  ghost predicate WellFormed(adj: Adjacency) {
    && (forall u :: u in adj ==> DistinctKeys(adj[u]))
    && (forall u, v :: HasEdge(adj, u, v) ==> v in adj)
  }

  lemma NodesDistinct(adj: Adjacency, nodeToIdx: map<NodeId, int>, idxToNode: map<int, NodeId>, nodes: seq<NodeId>)
    requires IndexMaps(adj, nodeToIdx, idxToNode, nodes)
    ensures Distinct(nodes)
    ensures forall u :: u in nodes <==> u in adj
  {
    forall u | u in adj ensures u in nodes {
      assert nodes[nodeToIdx[u]] == u;
    }
  }

  /** Giving a new node the next index keeps the index maps inverse. */
  lemma AddNodeIndexMaps(adj: Adjacency, nodeToIdx: map<NodeId, int>, idxToNode: map<int, NodeId>, nodes: seq<NodeId>, u: NodeId)
    requires IndexMaps(adj, nodeToIdx, idxToNode, nodes) && u !in adj
    ensures IndexMaps(adj[u := []], nodeToIdx[u := |adj|], idxToNode[|adj| := u], nodes + [u])
  {
    var adj', n2i', i2n', nodes' := adj[u := []], nodeToIdx[u := |adj|], idxToNode[|adj| := u], nodes + [u];
    assert |adj'| == |nodes'|;
    forall i | 0 <= i < |nodes'|
      ensures nodes'[i] in n2i' && n2i'[nodes'[i]] == i && i2n'[i] == nodes'[i]
    {
      if i < |nodes| {
        assert nodes'[i] == nodes[i] && nodes[i] in adj;
      }
    }
    forall v | v in n2i' ensures 0 <= n2i'[v] < |nodes'| && nodes'[n2i'[v]] == v {
      if v != u {
        assert nodes'[n2i'[v]] == nodes[nodeToIdx[v]];
      }
    }
  }

  /** The index maps only see which nodes the dicts hold, not their edges. */
  lemma SameKeysIndexMaps(adj: Adjacency, adj': Adjacency, nodeToIdx: map<NodeId, int>, idxToNode: map<int, NodeId>, nodes: seq<NodeId>)
    requires IndexMaps(adj, nodeToIdx, idxToNode, nodes) && adj'.Keys == adj.Keys
    ensures IndexMaps(adj', nodeToIdx, idxToNode, nodes)
  {
    assert |adj'| == |adj'.Keys| == |adj.Keys| == |adj|;
  }

  /** A node added with no edges changes no entry of the dicts. */
  lemma AddNodeAt(adj: Adjacency, u: NodeId, a: NodeId, b: NodeId)
    requires u !in adj
    ensures HasEdge(adj[u := []], a, b) <==> HasEdge(adj, a, b)
    ensures HasEdge(adj, a, b) ==> Weight(adj[u := []], a, b) == Weight(adj, a, b)
  {
    if a == u {
      assert Keys<NodeId, real>([]) == [];
    }
  }

  /** The invariant of the store: index maps, well-formed dicts, the edge counter equal to
      the number of stored entries, and symmetry when undirected. */
  ghost predicate Store(adj: Adjacency, nodeToIdx: map<NodeId, int>, idxToNode: map<int, NodeId>,
                        nodes: seq<NodeId>, edgeCount: int, directed: bool) {
    && IndexMaps(adj, nodeToIdx, idxToNode, nodes)
    && WellFormed(adj)
    && edgeCount == |EdgeList(nodes, adj)|
    && (!directed ==> Symmetric(adj))
  }

  /** Inserting a new node with the next index and no edges keeps the store's invariant,
      appends the node to the order and leaves the edge counter as it is. */
  lemma AddNodeStore(adj: Adjacency, nodeToIdx: map<NodeId, int>, idxToNode: map<int, NodeId>,
                     nodes: seq<NodeId>, edgeCount: int, directed: bool, u: NodeId)
    requires Store(adj, nodeToIdx, idxToNode, nodes, edgeCount, directed) && u !in adj
    ensures Store(adj[u := []], nodeToIdx[u := |adj|], idxToNode[|adj| := u], nodes + [u], edgeCount, directed)
  {
    var adj' := adj[u := []];
    AddNodeIndexMaps(adj, nodeToIdx, idxToNode, nodes, u);
    forall a, b
      ensures HasEdge(adj', a, b) <==> HasEdge(adj, a, b)
      ensures HasEdge(adj, a, b) ==> Weight(adj', a, b) == Weight(adj, a, b)
    {
      AddNodeAt(adj, u, a, b);
    }
    NodesDistinct(adj, nodeToIdx, idxToNode, nodes);
    assert (nodes + [u])[..|nodes|] == nodes;
    EdgeListFrame(nodes, adj, adj');
  }

  /** The dicts after `adjacency[s][t] = w`. */
  function PutEdge(adj: Adjacency, s: NodeId, t: NodeId, w: real): Adjacency
    requires s in adj
  {
    adj[s := Put(adj[s], t, w)]
  }

  /** The dicts after add_node(u): a new node starts with no edges. */
  function WithNode(adj: Adjacency, u: NodeId): (r: Adjacency)
    ensures r.Keys == adj.Keys + {u} && u in r && r[u] == NeighborsOf(adj, u)
  {
    if u in adj then adj else adj[u := []]
  }

  /** The node order after add_node(u): a new node goes last. */
  function NodesAfter(nodes: seq<NodeId>, adj: Adjacency, u: NodeId): seq<NodeId> {
    if u in adj then nodes else nodes + [u]
  }

  /** The dicts after add_edge's two add_node calls. */
  function WithEndpoints(adj: Adjacency, s: NodeId, t: NodeId): (r: Adjacency)
    ensures s in r && t in r && r.Keys == adj.Keys + {s, t}
  {
    WithNode(WithNode(adj, s), t)
  }

  /** The dicts after add_edge(s, t, w): missing endpoints added with no edges, then
      s -> t set to w, and t -> s too in an undirected graph unless it is a self-loop. */
  function AddEdgeTo(adj: Adjacency, directed: bool, s: NodeId, t: NodeId, w: real): Adjacency {
    WriteEdge(WithEndpoints(adj, s, t), directed, s, t, w)
  }

  /** The two writes of add_edge once both endpoints are nodes. */
  function WriteEdge(adj: Adjacency, directed: bool, s: NodeId, t: NodeId, w: real): Adjacency
    requires s in adj && t in adj
  {
    var forward := PutEdge(adj, s, t, w);
    if !directed && s != t then PutEdge(forward, t, s, w) else forward
  }

  /** How many entries add_edge(s, t, _) creates: s -> t unless present, and t -> s unless
      present in an undirected graph without a self-loop. */
  function NewEntries(adj: Adjacency, directed: bool, s: NodeId, t: NodeId): (r: int)
    ensures 0 <= r <= 2
  {
    (if HasEdge(adj, s, t) then 0 else 1) + (if !directed && s != t && !HasEdge(adj, t, s) then 1 else 0)
  }

  /** Adding the endpoints creates no entry, so it does not change which entries are new. */
  lemma WithEndpointsEntries(adj: Adjacency, directed: bool, s: NodeId, t: NodeId)
    ensures NewEntries(WithEndpoints(adj, s, t), directed, s, t) == NewEntries(adj, directed, s, t)
  {
    var withSource := WithNode(adj, s);
    if s !in adj {
      AddNodeAt(adj, s, s, t);
      AddNodeAt(adj, s, t, s);
    }
    if t !in withSource {
      AddNodeAt(withSource, t, s, t);
      AddNodeAt(withSource, t, t, s);
    }
  }

  /** Does add_edge(s, t, _) write the entry u -> v? */
  predicate Written(directed: bool, s: NodeId, t: NodeId, u: NodeId, v: NodeId) {
    (u == s && v == t) || (!directed && u == t && v == s)
  }

  /** The entry u -> v after setting s -> t to w. */
  lemma PutEdgeAt(adj: Adjacency, s: NodeId, t: NodeId, w: real, u: NodeId, v: NodeId)
    requires s in adj && DistinctKeys(adj[s])
    ensures HasEdge(PutEdge(adj, s, t, w), u, v) <==> (u == s && v == t) || HasEdge(adj, u, v)
    ensures HasEdge(PutEdge(adj, s, t, w), u, v) ==>
      Weight(PutEdge(adj, s, t, w), u, v) == if u == s && v == t then w else Weight(adj, u, v)
  {
    if u == s {
      PutLookup(adj[s], t, w);
    } else if u in adj {
      assert PutEdge(adj, s, t, w)[u] == adj[u];
    }
  }

  /** Setting s -> t to w keeps the dicts well formed, makes that edge weigh w, leaves every
      other edge alone and adds one entry to the edge list exactly when the edge is new. */
  lemma PutEdgeSound(adj: Adjacency, order: seq<NodeId>, s: NodeId, t: NodeId, w: real)
    requires WellFormed(adj) && s in adj && t in adj && Distinct(order) && s in order
    ensures WellFormed(PutEdge(adj, s, t, w))
    ensures forall u, v :: HasEdge(PutEdge(adj, s, t, w), u, v) <==> (u == s && v == t) || HasEdge(adj, u, v)
    ensures forall u, v :: HasEdge(PutEdge(adj, s, t, w), u, v) ==>
      Weight(PutEdge(adj, s, t, w), u, v) == if u == s && v == t then w else Weight(adj, u, v)
    ensures |EdgeList(order, PutEdge(adj, s, t, w))| ==
      |EdgeList(order, adj)| + (if HasEdge(adj, s, t) then 0 else 1)
  {
    var adj' := PutEdge(adj, s, t, w);
    forall u, v ensures HasEdge(adj', u, v) <==> (u == s && v == t) || HasEdge(adj, u, v)
      ensures HasEdge(adj', u, v) ==> Weight(adj', u, v) == if u == s && v == t then w else Weight(adj, u, v)
    {
      PutEdgeAt(adj, s, t, w, u, v);
    }
    forall u | u in adj' ensures DistinctKeys(adj'[u]) {
      if u == s {
        PutLookup(adj[s], t, w);
      } else {
        assert adj'[u] == adj[u];
      }
    }
    PutLookup(adj[s], t, w);
    EdgeListUpdateLength(order, adj, s, Put(adj[s], t, w));
  }

  /** Setting both s -> t and t -> s to the same weight keeps a graph symmetric. */
  lemma MirroredPutKeepsSymmetry(adj: Adjacency, order: seq<NodeId>, s: NodeId, t: NodeId, w: real)
    requires WellFormed(adj) && Symmetric(adj) && s in adj && t in adj && s != t
    requires Distinct(order) && s in order && t in order
    ensures Symmetric(PutEdge(PutEdge(adj, s, t, w), t, s, w))
  {
    var mid := PutEdge(adj, s, t, w);
    PutEdgeSound(adj, order, s, t, w);
    var last := PutEdge(mid, t, s, w);
    PutEdgeSound(mid, order, t, s, w);
    forall u, v | HasEdge(last, u, v)
      ensures HasEdge(last, v, u) && Weight(last, v, u) == Weight(last, u, v)
    {
      if !((u == s && v == t) || (u == t && v == s)) {
        assert HasEdge(adj, u, v);
        assert HasEdge(adj, v, u);
      }
    }
  }

  /** A self-loop is its own mirror. */
  lemma SelfLoopKeepsSymmetry(adj: Adjacency, order: seq<NodeId>, s: NodeId, w: real)
    requires WellFormed(adj) && Symmetric(adj) && s in adj && Distinct(order) && s in order
    ensures Symmetric(PutEdge(adj, s, s, w))
  {
    var adj' := PutEdge(adj, s, s, w);
    PutEdgeSound(adj, order, s, s, w);
    forall u, v | HasEdge(adj', u, v)
      ensures HasEdge(adj', v, u) && Weight(adj', v, u) == Weight(adj', u, v)
    {
      if !(u == s && v == s) {
        assert HasEdge(adj, u, v);
        assert HasEdge(adj, v, u);
      }
    }
  }

  /** The two writes of add_edge on a store that already holds both endpoints keep it well
      formed and symmetric when undirected, write exactly the entries `Written` names, and
      add one entry to the edge list per entry that was new. */
  lemma WriteEdgeSound(adj: Adjacency, order: seq<NodeId>, directed: bool, s: NodeId, t: NodeId, w: real)
    requires WellFormed(adj) && s in adj && t in adj
    requires Distinct(order) && s in order && t in order
    requires !directed ==> Symmetric(adj)
    ensures var adj' := WriteEdge(adj, directed, s, t, w);
      && WellFormed(adj')
      && (!directed ==> Symmetric(adj'))
      && (forall u, v :: HasEdge(adj', u, v) <==> Written(directed, s, t, u, v) || HasEdge(adj, u, v))
      && (forall u, v :: HasEdge(adj', u, v) ==>
            Weight(adj', u, v) == if Written(directed, s, t, u, v) then w else Weight(adj, u, v))
      && |EdgeList(order, adj')| == |EdgeList(order, adj)| + NewEntries(adj, directed, s, t)
  {
    var forward := PutEdge(adj, s, t, w);
    PutEdgeSound(adj, order, s, t, w);
    if !directed && s != t {
      PutEdgeSound(forward, order, t, s, w);
      MirroredPutKeepsSymmetry(adj, order, s, t, w);
    } else if !directed {
      SelfLoopKeepsSymmetry(adj, order, s, w);
    }
  }

  /** The dicts after `del adjacency[s][t]`. */
  function DelEdge(adj: Adjacency, s: NodeId, t: NodeId): Adjacency
    requires HasEdge(adj, s, t)
  {
    adj[s := Remove(adj[s], t)]
  }

  /** The dicts after a remove_edge(s, t) that finds the edge: s -> t goes, and t -> s too in
      an undirected graph unless it is a self-loop. */
  function RemoveEdgeFrom(adj: Adjacency, directed: bool, s: NodeId, t: NodeId): Adjacency
    requires HasEdge(adj, s, t) && (!directed && s != t ==> HasEdge(adj, t, s))
  {
    var forward := DelEdge(adj, s, t);
    if !directed && s != t then DelEdge(forward, t, s) else forward
  }

  /** How many entries a remove_edge that finds the edge deletes. */
  function RemovedEntries(directed: bool, s: NodeId, t: NodeId): int {
    if !directed && s != t then 2 else 1
  }

  /** The entry u -> v after deleting s -> t. */
  lemma DelEdgeAt(adj: Adjacency, s: NodeId, t: NodeId, u: NodeId, v: NodeId)
    requires HasEdge(adj, s, t) && DistinctKeys(adj[s])
    ensures HasEdge(DelEdge(adj, s, t), u, v) <==> !(u == s && v == t) && HasEdge(adj, u, v)
    ensures HasEdge(DelEdge(adj, s, t), u, v) ==> Weight(DelEdge(adj, s, t), u, v) == Weight(adj, u, v)
  {
    if u == s {
      RemoveLookup(adj[s], t);
    } else if u in adj {
      assert DelEdge(adj, s, t)[u] == adj[u];
    }
  }

  /** Deleting s -> t keeps the dicts well formed, drops exactly that entry and shortens the
      edge list by one. */
  lemma DelEdgeSound(adj: Adjacency, order: seq<NodeId>, s: NodeId, t: NodeId)
    requires WellFormed(adj) && HasEdge(adj, s, t) && Distinct(order) && s in order
    ensures WellFormed(DelEdge(adj, s, t))
    ensures forall u, v :: HasEdge(DelEdge(adj, s, t), u, v) <==> !(u == s && v == t) && HasEdge(adj, u, v)
    ensures forall u, v :: HasEdge(DelEdge(adj, s, t), u, v) ==> Weight(DelEdge(adj, s, t), u, v) == Weight(adj, u, v)
    ensures |EdgeList(order, DelEdge(adj, s, t))| == |EdgeList(order, adj)| - 1
  {
    var adj' := DelEdge(adj, s, t);
    forall u, v
      ensures HasEdge(adj', u, v) <==> !(u == s && v == t) && HasEdge(adj, u, v)
      ensures HasEdge(adj', u, v) ==> Weight(adj', u, v) == Weight(adj, u, v)
    {
      DelEdgeAt(adj, s, t, u, v);
    }
    forall u | u in adj' ensures DistinctKeys(adj'[u]) {
      if u == s {
        RemoveLookup(adj[s], t);
      } else {
        assert adj'[u] == adj[u];
      }
    }
    RemoveLookup(adj[s], t);
    EdgeListUpdateLength(order, adj, s, Remove(adj[s], t));
  }

  /** A successful remove_edge keeps the dicts well formed and an undirected graph symmetric,
      deletes exactly the entries `Written` names, and shortens the edge list by as many. */
  lemma RemoveEdgeSound(adj: Adjacency, order: seq<NodeId>, directed: bool, s: NodeId, t: NodeId)
    requires WellFormed(adj) && HasEdge(adj, s, t) && Distinct(order) && s in order && t in order
    requires !directed ==> Symmetric(adj)
    ensures !directed && s != t ==> HasEdge(adj, t, s)
    ensures var adj' := RemoveEdgeFrom(adj, directed, s, t);
      && WellFormed(adj')
      && (!directed ==> Symmetric(adj'))
      && (forall u, v :: HasEdge(adj', u, v) <==> !Written(directed, s, t, u, v) && HasEdge(adj, u, v))
      && (forall u, v :: HasEdge(adj', u, v) ==> Weight(adj', u, v) == Weight(adj, u, v))
      && |EdgeList(order, adj')| == |EdgeList(order, adj)| - RemovedEntries(directed, s, t)
  {
    var forward := DelEdge(adj, s, t);
    DelEdgeSound(adj, order, s, t);
    if !directed && s != t {
      DelEdgeSound(forward, order, t, s);
    }
    var adj' := RemoveEdgeFrom(adj, directed, s, t);
    if !directed {
      forall u, v | HasEdge(adj', u, v)
        ensures HasEdge(adj', v, u) && Weight(adj', v, u) == Weight(adj', u, v)
      {
        assert HasEdge(adj, u, v) && HasEdge(adj, v, u);
      }
    }
  }

  /** A successful remove_edge keeps the store's invariant, with the counter shrunk by the
      number of deleted entries; the nodes and their indices stay as they are. */
  lemma RemoveEdgeStore(adj: Adjacency, nodeToIdx: map<NodeId, int>, idxToNode: map<int, NodeId>,
                        nodes: seq<NodeId>, edgeCount: int, directed: bool, s: NodeId, t: NodeId)
    requires Store(adj, nodeToIdx, idxToNode, nodes, edgeCount, directed) && HasEdge(adj, s, t)
    ensures !directed && s != t ==> HasEdge(adj, t, s)
    ensures Store(RemoveEdgeFrom(adj, directed, s, t), nodeToIdx, idxToNode, nodes,
                  edgeCount - RemovedEntries(directed, s, t), directed)
  {
    NodesDistinct(adj, nodeToIdx, idxToNode, nodes);
    RemoveEdgeKeeps(adj, nodes, directed, s, t);
    SameKeysIndexMaps(adj, RemoveEdgeFrom(adj, directed, s, t), nodeToIdx, idxToNode, nodes);
  }

  /** The part of `WriteEdgeSound` the store's invariant needs. */
  lemma WriteEdgeKeeps(adj: Adjacency, order: seq<NodeId>, directed: bool, s: NodeId, t: NodeId, w: real)
    requires WellFormed(adj) && s in adj && t in adj
    requires Distinct(order) && s in order && t in order
    requires !directed ==> Symmetric(adj)
    ensures WriteEdge(adj, directed, s, t, w).Keys == adj.Keys
    ensures WellFormed(WriteEdge(adj, directed, s, t, w))
    ensures !directed ==> Symmetric(WriteEdge(adj, directed, s, t, w))
    ensures |EdgeList(order, WriteEdge(adj, directed, s, t, w))| == |EdgeList(order, adj)| + NewEntries(adj, directed, s, t)
  {
    WriteEdgeSound(adj, order, directed, s, t, w);
  }

  /** The part of `RemoveEdgeSound` the store's invariant needs. */
  lemma RemoveEdgeKeeps(adj: Adjacency, order: seq<NodeId>, directed: bool, s: NodeId, t: NodeId)
    requires WellFormed(adj) && HasEdge(adj, s, t) && Distinct(order) && s in order && t in order
    requires !directed ==> Symmetric(adj)
    ensures !directed && s != t ==> HasEdge(adj, t, s)
    ensures RemoveEdgeFrom(adj, directed, s, t).Keys == adj.Keys
    ensures WellFormed(RemoveEdgeFrom(adj, directed, s, t))
    ensures !directed ==> Symmetric(RemoveEdgeFrom(adj, directed, s, t))
    ensures |EdgeList(order, RemoveEdgeFrom(adj, directed, s, t))| == |EdgeList(order, adj)| - RemovedEntries(directed, s, t)
  {
    RemoveEdgeSound(adj, order, directed, s, t);
  }

  /** add_edge's writes keep the store's invariant, with the counter grown by the number
      of new entries; the nodes and their indices stay as they are. */
  lemma AddEdgeStore(adj: Adjacency, nodeToIdx: map<NodeId, int>, idxToNode: map<int, NodeId>,
                     nodes: seq<NodeId>, edgeCount: int, directed: bool, s: NodeId, t: NodeId, w: real)
    requires Store(adj, nodeToIdx, idxToNode, nodes, edgeCount, directed) && s in adj && t in adj
    ensures Store(WriteEdge(adj, directed, s, t, w), nodeToIdx, idxToNode, nodes,
                  edgeCount + NewEntries(adj, directed, s, t), directed)
  {
    NodesDistinct(adj, nodeToIdx, idxToNode, nodes);
    WriteEdgeKeeps(adj, nodes, directed, s, t, w);
    SameKeysIndexMaps(adj, WriteEdge(adj, directed, s, t, w), nodeToIdx, idxToNode, nodes);
  }

  /** The out-degree get_out_degree reports, the sum of `u`'s dict, is the weight leaving `u`
      towards the nodes; an unknown node has none. */
  lemma OutDegreeSum(adj: Adjacency, nodeToIdx: map<NodeId, int>, idxToNode: map<int, NodeId>, nodes: seq<NodeId>, u: NodeId)
    requires IndexMaps(adj, nodeToIdx, idxToNode, nodes) && WellFormed(adj)
    ensures Sum(Values(NeighborsOf(adj, u))) == OutWeight(nodes, adj, u)
    ensures u !in adj ==> OutWeight(nodes, adj, u) == 0.0
  {
    NodesDistinct(adj, nodeToIdx, idxToNode, nodes);
    OutWeightLookup(nodes, adj, u);
    var d := NeighborsOf(adj, u);
    if u in adj {
      forall k | 0 <= k < |d| ensures d[k].0 in nodes {
        assert Keys(d)[k] == d[k].0;
        assert HasEdge(adj, u, d[k].0);
      }
    }
    LookupSumIsValueSum(nodes, d);
  }

  /** A node is dangling, its dict empty, exactly when no edge leaves it. */
  lemma EmptyIffNoEdges(adj: Adjacency, u: NodeId)
    requires u in adj
    ensures adj[u] == [] <==> forall v :: !HasEdge(adj, u, v)
  {
    if adj[u] != [] {
      assert Keys(adj[u])[0] == adj[u][0].0;
      assert HasEdge(adj, u, adj[u][0].0);
    }
  }

  /** Appending an entry with a new key to a dict adds that key and nothing else. */
  lemma GetOrAppend(d: Neighbors, k: NodeId, w: real, x: NodeId)
    requires DistinctKeys(d + [(k, w)])
    ensures GetOr(d + [(k, w)], x, 0.0) == if x == k then w else GetOr(d, x, 0.0)
  {
    var d' := d + [(k, w)];
    IndexOfUnique(d', |d|);
    if x != k && HasKey(d, x) {
      var i := IndexOf(d, x);
      IndexOfUnique(d', i);
    }
    if x != k && HasKey(d', x) {
      var i := IndexOf(d', x);
      assert Keys(d)[i] == x;
    }
  }

  /** Every target of `u`'s dict has an index, and that index leads back to it. */
  lemma TargetsIndexed(adj: Adjacency, nodeToIdx: map<NodeId, int>, idxToNode: map<int, NodeId>, nodes: seq<NodeId>, u: NodeId)
    requires IndexMaps(adj, nodeToIdx, idxToNode, nodes) && WellFormed(adj) && u in adj
    ensures DistinctKeys(adj[u])
    ensures forall k :: 0 <= k < |adj[u]| ==>
      adj[u][k].0 in nodeToIdx && 0 <= nodeToIdx[adj[u][k].0] < |nodes| && nodes[nodeToIdx[adj[u][k].0]] == adj[u][k].0
    ensures forall v :: GetOr(adj[u], v, 0.0) == WeightOr0(adj, u, v)
  {
    forall k | 0 <= k < |adj[u]| ensures adj[u][k].0 in adj {
      assert Keys(adj[u])[k] == adj[u][k].0;
      assert HasEdge(adj, u, adj[u][k].0);
    }
  }

  /** A node is dangling, its dict empty, exactly when no edge leaves it. */
  lemma DanglingIffNoEdges(adj: Adjacency, nodeToIdx: map<NodeId, int>, idxToNode: map<int, NodeId>, nodes: seq<NodeId>)
    requires IndexMaps(adj, nodeToIdx, idxToNode, nodes)
    ensures forall i :: 0 <= i < |nodes| ==> (adj[nodes[i]] == [] <==> forall v :: !HasEdge(adj, nodes[i], v))
  {
    forall i | 0 <= i < |nodes| ensures adj[nodes[i]] == [] <==> forall v :: !HasEdge(adj, nodes[i], v) {
      EmptyIffNoEdges(adj, nodes[i]);
    }
  }

  /** The loop of get_dangling_nodes: marks the index of every node of `order` whose dict is
      empty. */
  method DanglingMask(order: seq<NodeId>, adj: Adjacency, nodeToIdx: map<NodeId, int>) returns (mask: seq<bool>)
    requires forall i :: 0 <= i < |order| ==> order[i] in adj && order[i] in nodeToIdx && nodeToIdx[order[i]] == i
    ensures |mask| == |order| && forall i :: 0 <= i < |order| ==> (mask[i] <==> adj[order[i]] == [])
  {
    var n := |order|;
    var buffer := new bool[n](_ => false);
    for k := 0 to n
      invariant forall i :: 0 <= i < n ==> buffer[i] == (i < k && adj[order[i]] == [])
    {
      if adj[order[k]] == [] {
        var idx := nodeToIdx[order[k]];
        buffer[idx] := true;
      }
    }
    mask := buffer[..];
  }

  /** The loops of get_edges: the entries of each node of `order`, node by node. */
  method CollectEdges(order: seq<NodeId>, adj: Adjacency) returns (edges: seq<Edge>)
    requires forall u :: u in order ==> u in adj
    ensures edges == EdgeList(order, adj)
  {
    edges := [];
    for i := 0 to |order|
      invariant edges == EdgeList(order[..i], adj)
    {
      assert order[..i + 1][..i] == order[..i];
      edges := AppendEdges(edges, order[i], adj[order[i]]);
    }
    assert order[..|order|] == order;
  }

  /** The inner loop of get_edges: appends one tuple per entry of `source`, in dict order. */
  method AppendEdges(edges: seq<Edge>, source: NodeId, neighbors: Neighbors) returns (r: seq<Edge>)
    ensures r == edges + EdgesOf(source, neighbors)
  {
    r := edges;
    for k := 0 to |neighbors|
      invariant r == edges + EdgesOf(source, neighbors[..k])
    {
      assert EdgesOf(source, neighbors[..k + 1]) == EdgesOf(source, neighbors[..k]) + [(source, neighbors[k].0, neighbors[k].1)];
      r := r + [(source, neighbors[k].0, neighbors[k].1)];
    }
    assert neighbors[..|neighbors|] == neighbors;
  }

  /** An enumeration of a set: Python iterates a set in an order of its own choosing. */
  method Enumerate(keep: set<NodeId>) returns (order: seq<NodeId>)
    ensures forall x :: x in order <==> x in keep
    ensures Distinct(order)
  {
    order := [];
    var rest := keep;
    while rest != {}
      invariant forall x :: x in keep <==> x in rest || x in order
      invariant forall x :: x in rest ==> x !in order
      invariant Distinct(order)
      decreases |rest|
    {
      var x :| x in rest;
      order := order + [x];
      rest := rest - {x};
    }
  }

  /** The loops of get_adjacency_matrix: a zero n x n buffer in which row i receives the
      weights of node i's dict. */
  method DenseMatrix(adj: Adjacency, nodeToIdx: map<NodeId, int>, idxToNode: map<int, NodeId>, nodes: seq<NodeId>)
    returns (matrix: Matrix)
    requires IndexMaps(adj, nodeToIdx, idxToNode, nodes) && WellFormed(adj)
    ensures IsMatrix(matrix, |nodes|, |nodes|)
    ensures forall i, j :: 0 <= i < |nodes| && 0 <= j < |nodes| ==> matrix[i][j] == WeightOr0(adj, nodes[i], nodes[j])
  {
    var n := |nodes|;
    NodesDistinct(adj, nodeToIdx, idxToNode, nodes);
    var m := new real[n, n]((_, _) => 0.0);
    for i := 0 to n
      invariant forall r, c :: 0 <= r < n && 0 <= c < n ==>
        m[r, c] == if r < i then WeightOr0(adj, nodes[r], nodes[c]) else 0.0
    {
      TargetsIndexed(adj, nodeToIdx, idxToNode, nodes, nodes[i]);
      FillRow(m, i, adj[nodes[i]], nodeToIdx, nodes);
    }
    matrix := Rows(m);
  }

  /** The inner loop of get_adjacency_matrix: writes row `i` of `m`, putting the weight of each
      entry of `neighbors` in the column of its target. */
  method FillRow(m: array2<real>, i: nat, neighbors: Neighbors, nodeToIdx: map<NodeId, int>, nodes: seq<NodeId>)
    requires i < m.Length0 && m.Length1 == |nodes| && Distinct(nodes) && DistinctKeys(neighbors)
    requires forall k :: 0 <= k < |neighbors| ==>
      neighbors[k].0 in nodeToIdx && 0 <= nodeToIdx[neighbors[k].0] < |nodes| && nodes[nodeToIdx[neighbors[k].0]] == neighbors[k].0
    requires forall c :: 0 <= c < |nodes| ==> m[i, c] == 0.0
    modifies m
    ensures forall r, c :: 0 <= r < m.Length0 && 0 <= c < m.Length1 ==>
      m[r, c] == if r == i then GetOr(neighbors, nodes[c], 0.0) else old(m[r, c])
  {
    for k := 0 to |neighbors|
      invariant forall r, c :: 0 <= r < m.Length0 && 0 <= c < m.Length1 ==>
        m[r, c] == if r == i then GetOr(neighbors[..k], nodes[c], 0.0) else old(m[r, c])
    {
      var target := neighbors[k].0;
      var j := nodeToIdx[target];
      RowStep(neighbors, k, nodes, j);
      m[i, j] := neighbors[k].1;
    }
    assert neighbors[..|neighbors|] == neighbors;
  }

  /** One step of `FillRow`: the next entry changes the row only in its target's column. */
  lemma RowStep(neighbors: Neighbors, k: nat, nodes: seq<NodeId>, j: int)
    requires k < |neighbors| && DistinctKeys(neighbors) && Distinct(nodes)
    requires 0 <= j < |nodes| && nodes[j] == neighbors[k].0
    ensures forall c :: 0 <= c < |nodes| ==>
      GetOr(neighbors[..k + 1], nodes[c], 0.0) == if c == j then neighbors[k].1 else GetOr(neighbors[..k], nodes[c], 0.0)
  {
    assert neighbors[..k + 1] == neighbors[..k] + [(neighbors[k].0, neighbors[k].1)];
    forall c | 0 <= c < |nodes|
      ensures GetOr(neighbors[..k + 1], nodes[c], 0.0) == if c == j then neighbors[k].1 else GetOr(neighbors[..k], nodes[c], 0.0)
    {
      GetOrAppend(neighbors[..k], neighbors[k].0, neighbors[k].1, nodes[c]);
    }
  }

  /** The entry u -> v after add_edge's writes on a store holding both endpoints. */
  lemma WriteEdgeAt(adj: Adjacency, directed: bool, s: NodeId, t: NodeId, w: real, u: NodeId, v: NodeId)
    requires WellFormed(adj) && s in adj && t in adj
    ensures HasEdge(WriteEdge(adj, directed, s, t, w), u, v) <==> Written(directed, s, t, u, v) || HasEdge(adj, u, v)
    ensures HasEdge(WriteEdge(adj, directed, s, t, w), u, v) ==>
      Weight(WriteEdge(adj, directed, s, t, w), u, v) == if Written(directed, s, t, u, v) then w else Weight(adj, u, v)
  {
    PutEdgeAt(adj, s, t, w, u, v);
    if !directed && s != t {
      var forward := PutEdge(adj, s, t, w);
      assert forward[t] == adj[t];
      PutEdgeAt(forward, t, s, w, u, v);
    }
  }

  /** What subgraph builds: the nodes it keeps are the requested ones the graph has, and
      every entry is an edge of the graph between kept nodes, with the graph's weight. */
  ghost predicate SubgraphSound(sub: Adjacency, adj: Adjacency, keep: set<NodeId>) {
    && sub.Keys == keep * adj.Keys
    && forall u, v :: HasEdge(sub, u, v) ==>
         u in keep && v in keep && HasEdge(adj, u, v) && Weight(sub, u, v) == Weight(adj, u, v)
  }

  /** Copying one edge of the graph between kept nodes into the subgraph keeps it sound,
      stores that edge and loses none of the entries already there. */
  lemma SubgraphStep(sub: Adjacency, adj: Adjacency, keep: set<NodeId>, directed: bool, s: NodeId, t: NodeId)
    requires SubgraphSound(sub, adj, keep) && WellFormed(sub) && WellFormed(adj)
    requires s in keep && t in keep && HasEdge(adj, s, t)
    requires !directed ==> Symmetric(adj)
    ensures var sub' := AddEdgeTo(sub, directed, s, t, Weight(adj, s, t));
      && SubgraphSound(sub', adj, keep)
      && HasEdge(sub', s, t)
      && forall u, v :: HasEdge(sub, u, v) ==> HasEdge(sub', u, v)
  {
    var w := Weight(adj, s, t);
    assert s in sub && t in sub;
    var sub' := AddEdgeTo(sub, directed, s, t, w);
    assert sub' == WriteEdge(sub, directed, s, t, w);
    forall u, v
      ensures HasEdge(sub', u, v) <==> Written(directed, s, t, u, v) || HasEdge(sub, u, v)
      ensures HasEdge(sub', u, v) ==> Weight(sub', u, v) == if Written(directed, s, t, u, v) then w else Weight(sub, u, v)
    {
      WriteEdgeAt(sub, directed, s, t, w, u, v);
    }
  }

  /** Every node of the store has an empty neighbour dict. */
  ghost predicate NoEntries(adj: Adjacency) {
    forall u :: u in adj ==> adj[u] == []
  }

  /** add_node(u) on a store with no entries leaves it without entries. */
  lemma WithNodeNoEntries(adj: Adjacency, u: NodeId)
    requires NoEntries(adj)
    ensures NoEntries(WithNode(adj, u))
  {
  }

  /** The nodes of `order` that the store has, as a set. */
  ghost function Kept(order: seq<NodeId>, adj: Adjacency): (r: set<NodeId>)
    ensures forall x :: x in r <==> x in order && x in adj
  {
    if order == [] then {}
    else Kept(order[..|order| - 1], adj) + (if order[|order| - 1] in adj then {order[|order| - 1]} else {})
  }

  /** Kept grows by the next node of `order` when the store has it. */
  lemma KeptStep(order: seq<NodeId>, adj: Adjacency, i: nat)
    requires i < |order|
    ensures Kept(order[..i + 1], adj) == Kept(order[..i], adj) + (if order[i] in adj then {order[i]} else {})
  {
    assert order[..i + 1][..i] == order[..i];
  }

  /** Over an enumeration of `keep`, Kept is the set of requested nodes the store has. */
  lemma KeptAll(order: seq<NodeId>, adj: Adjacency, keep: set<NodeId>)
    requires forall x :: x in order <==> x in keep
    ensures Kept(order, adj) == keep * adj.Keys
  {
  }

  /** The nodes of `order`, as a set. */
  ghost function Elements(order: seq<NodeId>): (r: set<NodeId>)
    ensures forall x :: x in r <==> x in order
  {
    if order == [] then {} else Elements(order[..|order| - 1]) + {order[|order| - 1]}
  }

  /** The subgraph's edge copy has handled every source in `done`: each edge of the graph from
      one of them to a kept node is in the subgraph. */
  ghost predicate Copied(sub: Adjacency, adj: Adjacency, keep: set<NodeId>, done: set<NodeId>) {
    forall u, v :: u in done && v in keep && HasEdge(adj, u, v) ==> HasEdge(sub, u, v)
  }

  /** The edge copy has handled the first k entries of source s. */
  ghost predicate PrefixCopied(sub: Adjacency, adj: Adjacency, keep: set<NodeId>, s: NodeId, k: nat)
    requires s in adj && k <= |adj[s]|
  {
    forall j :: 0 <= j < k && adj[s][j].0 in keep ==> HasEdge(sub, s, adj[s][j].0)
  }

  /** A store of kept nodes without entries is a sound start for the edge copy. */
  lemma CopyEdgesStart(sub: Adjacency, adj: Adjacency, keep: set<NodeId>)
    requires NoEntries(sub) && sub.Keys == keep * adj.Keys
    ensures SubgraphSound(sub, adj, keep) && Copied(sub, adj, keep, {})
  {
    forall u, v ensures !HasEdge(sub, u, v) {
      if u in sub {
        assert Keys(sub[u]) == [];
      }
    }
  }

  /** Handling entry k of kept source s (copying it when its target is kept) keeps the copy
      sound and extends the handled prefix by one. */
  lemma CopyEdgeStep(sub: Adjacency, adj: Adjacency, keep: set<NodeId>, directed: bool, done: set<NodeId>,
                     s: NodeId, k: nat)
    requires SubgraphSound(sub, adj, keep) && WellFormed(sub) && WellFormed(adj)
    requires !directed ==> Symmetric(adj)
    requires s in keep && s in adj && k < |adj[s]|
    requires Copied(sub, adj, keep, done) && PrefixCopied(sub, adj, keep, s, k)
    ensures var sub' := if adj[s][k].0 in keep then AddEdgeTo(sub, directed, s, adj[s][k].0, adj[s][k].1) else sub;
      && SubgraphSound(sub', adj, keep)
      && Copied(sub', adj, keep, done)
      && PrefixCopied(sub', adj, keep, s, k + 1)
  {
    var t := adj[s][k].0;
    if t in keep {
      IndexOfUnique(adj[s], k);
      assert HasEdge(adj, s, t) && adj[s][k].1 == Weight(adj, s, t);
      SubgraphStep(sub, adj, keep, directed, s, t);
    }
  }

  /** Once every entry of s is handled, s joins the handled sources. */
  lemma CopySourceDone(sub: Adjacency, adj: Adjacency, keep: set<NodeId>, done: set<NodeId>, s: NodeId)
    requires Copied(sub, adj, keep, done)
    requires s in adj ==> PrefixCopied(sub, adj, keep, s, |adj[s]|)
    ensures Copied(sub, adj, keep, done + {s})
  {
    forall v | v in keep && HasEdge(adj, s, v) ensures HasEdge(sub, s, v) {
      var j := IndexOf(adj[s], v);
    }
  }

  /** A graph whose fields hold the store after add_node(u) on a valid store is valid. */
  lemma AddNodeValid(g: SparseGraph, adj: Adjacency, nodeToIdx: map<NodeId, int>, idxToNode: map<int, NodeId>,
                     nodes: seq<NodeId>, u: NodeId)
    requires Store(adj, nodeToIdx, idxToNode, nodes, g.edgeCount, g.directed) && u !in adj
    requires g.adjacencyList == adj[u := []] && g.nodes == nodes + [u]
    requires g.nodeToIdx == nodeToIdx[u := |adj|] && g.idxToNode == idxToNode[|adj| := u]
    ensures g.Valid()
  {
    AddNodeStore(adj, nodeToIdx, idxToNode, nodes, g.edgeCount, g.directed, u);
  }

  /** The graph store. `adjacencyList` is the dict of dicts; its keys are the nodes,
      and since nodes are never removed their insertion order is the index order that
      `nodeToIdx` and `idxToNode` record. */
  class SparseGraph {
    const directed: bool
    var adjacencyList: Adjacency
    var nodeToIdx: map<NodeId, int>
    var idxToNode: map<int, NodeId>
    var edgeCount: int
    /** The keys of `adjacencyList` in insertion order. */
    ghost var nodes: seq<NodeId>

    /** The class invariant: the store's invariant over the fields. */
    ghost predicate Valid()
      reads this
    {
      Store(adjacencyList, nodeToIdx, idxToNode, nodes, edgeCount, directed)
    }

    /** get_nodes: the nodes in insertion order, node i at index i. */
    function GetNodes(): (r: seq<NodeId>)
      reads this
      requires Valid()
      ensures r == nodes
    {
      seq(|adjacencyList|, i requires 0 <= i < |adjacencyList| && Valid() reads this => idxToNode[i])
    }

    constructor (directed: bool)
      ensures Valid()
      ensures this.directed == directed
      ensures adjacencyList == map[] && nodeToIdx == map[] && idxToNode == map[] && edgeCount == 0
      ensures nodes == []
    {
      this.directed := directed;
      adjacencyList := map[];
      nodeToIdx := map[];
      idxToNode := map[];
      edgeCount := 0;
      nodes := [];
    }

    /** add_node: a new node gets the next index and no edges; a known node changes nothing. */
    method AddNode(nodeId: NodeId)
      requires Valid()
      modifies this
      ensures Valid()
      ensures adjacencyList == WithNode(old(adjacencyList), nodeId)
      ensures nodeToIdx == if nodeId in old(adjacencyList) then old(nodeToIdx) else old(nodeToIdx)[nodeId := old(|adjacencyList|)]
      ensures idxToNode == if nodeId in old(adjacencyList) then old(idxToNode) else old(idxToNode)[old(|adjacencyList|) := nodeId]
      ensures nodes == NodesAfter(old(nodes), old(adjacencyList), nodeId)
      ensures edgeCount == old(edgeCount)
    {
      if nodeId !in adjacencyList {
        ghost var adj, n2i, i2n, order := adjacencyList, nodeToIdx, idxToNode, nodes;
        var idx := |adjacencyList|;
        adjacencyList, nodeToIdx, idxToNode, nodes :=
          adjacencyList[nodeId := []], nodeToIdx[nodeId := idx], idxToNode[idx := nodeId], nodes + [nodeId];
        AddNodeValid(this, adj, n2i, i2n, order, nodeId);
      }
    }

    /** add_edge: creates missing endpoints, then sets (or overwrites) the weight of
        source -> target, and of target -> source too in an undirected graph unless it is a
        self-loop; the counter grows once per entry that was not there before. */
    method AddEdge(source: NodeId, target: NodeId, weight: real)
      requires Valid()
      modifies this
      ensures Valid()
      ensures adjacencyList == AddEdgeTo(old(adjacencyList), directed, source, target, weight)
      ensures nodes == NodesAfter(NodesAfter(old(nodes), old(adjacencyList), source), WithNode(old(adjacencyList), source), target)
      ensures edgeCount == old(edgeCount) + NewEntries(old(adjacencyList), directed, source, target)
    {
      AddNode(source);
      AddNode(target);
      WithEndpointsEntries(old(adjacencyList), directed, source, target);
      WriteEntries(source, target, weight);
    }

    /** The part of add_edge after its add_node calls: the entry source -> target, and its
        mirror in an undirected graph, each counted when new. */
    method WriteEntries(source: NodeId, target: NodeId, weight: real)
      requires Valid() && source in adjacencyList && target in adjacencyList
      modifies this
      ensures Valid()
      ensures adjacencyList == WriteEdge(old(adjacencyList), directed, source, target, weight)
      ensures nodeToIdx == old(nodeToIdx) && idxToNode == old(idxToNode) && nodes == old(nodes)
      ensures edgeCount == old(edgeCount) + NewEntries(old(adjacencyList), directed, source, target)
    {
      AddEdgeStore(adjacencyList, nodeToIdx, idxToNode, nodes, edgeCount, directed, source, target, weight);
      var adj, count := adjacencyList, edgeCount;
      var neighbors := adj[source];
      if !HasKey(neighbors, target) {
        count := count + 1;
      }
      adj := adj[source := Put(neighbors, target, weight)];
      if !directed && source != target {
        var reverse := adj[target];
        if !HasKey(reverse, source) {
          count := count + 1;
        }
        adj := adj[target := Put(reverse, source, weight)];
      }
      adjacencyList, edgeCount := adj, count;
    }

    /** remove_edge: when source -> target is stored, deletes it, and its mirror in an
        undirected graph unless it is a self-loop, and reports true; otherwise changes nothing
        and reports false. Nodes are never removed. */
    method RemoveEdge(source: NodeId, target: NodeId) returns (removed: bool)
      requires Valid()
      modifies this
      ensures Valid()
      ensures removed == HasEdge(old(adjacencyList), source, target)
      ensures !removed ==> adjacencyList == old(adjacencyList) && edgeCount == old(edgeCount)
      ensures removed ==>
        && (!directed && source != target ==> HasEdge(old(adjacencyList), target, source))
        && adjacencyList == RemoveEdgeFrom(old(adjacencyList), directed, source, target)
        && edgeCount == old(edgeCount) - RemovedEntries(directed, source, target)
      ensures nodeToIdx == old(nodeToIdx) && idxToNode == old(idxToNode) && nodes == old(nodes)
    {
      if source in adjacencyList && HasKey(adjacencyList[source], target) {
        RemoveEdgeStore(adjacencyList, nodeToIdx, idxToNode, nodes, edgeCount, directed, source, target);
        var adj, count := adjacencyList, edgeCount;
        adj := adj[source := Remove(adj[source], target)];
        count := count - 1;
        if !directed && source != target {
          adj := adj[target := Remove(adj[target], source)];
          count := count - 1;
        }
        adjacencyList, edgeCount := adj, count;
        return true;
      }
      return false;
    }

    /** get_neighbors: a copy of the node's dict, empty for an unknown node. */
    function GetNeighbors(nodeId: NodeId): (r: Neighbors)
      reads this
      requires Valid()
      ensures DistinctKeys(r)
      ensures forall v :: HasKey(r, v) <==> HasEdge(adjacencyList, nodeId, v)
      ensures forall v :: HasKey(r, v) ==> v in adjacencyList && Get(r, v) == Weight(adjacencyList, nodeId, v)
    {
      NeighborsOf(adjacencyList, nodeId)
    }

    /** get_out_degree: the total weight of the edges leaving the node, 0 for an unknown node. */
    function GetOutDegree(nodeId: NodeId): (r: real)
      reads this
      requires Valid()
      ensures r == OutWeight(nodes, adjacencyList, nodeId)
      ensures nodeId !in adjacencyList ==> r == 0.0
    {
      OutDegreeSum(adjacencyList, nodeToIdx, idxToNode, nodes, nodeId);
      Sum(Values(NeighborsOf(adjacencyList, nodeId)))
    }

    /** get_in_degree: the total weight of the edges entering the node; an undirected graph
        answers with the out-degree, which its symmetry makes the same number. */
    method GetInDegree(nodeId: NodeId) returns (total: real)
      requires Valid()
      ensures total == InWeight(nodes, adjacencyList, nodeId)
    {
      if !directed {
        InWeightSymmetric(nodes, adjacencyList, nodeId);
        return GetOutDegree(nodeId);
      }
      total := 0.0;
      var order := GetNodes();
      for i := 0 to |order|
        invariant total == InWeight(order[..i], adjacencyList, nodeId)
      {
        assert order[..i + 1][..i] == order[..i];
        var neighbors := adjacencyList[order[i]];
        if HasKey(neighbors, nodeId) {
          total := total + Get(neighbors, nodeId);
        }
      }
      assert order[..|order|] == order;
    }

    /** __len__: the number of nodes. */
    function Len(): (r: nat)
      reads this
      requires Valid()
      ensures r == |nodes| == |GetNodes()|
    {
      |adjacencyList|
    }

    /** get_edges: every stored entry as a (source, target, weight) triple, source by source in
        node order and, within a source, in the order of its dict; as many as the counter says. */
    method GetEdges() returns (edges: seq<Edge>)
      requires Valid()
      ensures edges == EdgeList(nodes, adjacencyList)
      ensures |edges| == edgeCount
      ensures forall e :: e in edges <==> HasEdge(adjacencyList, e.0, e.1) && Weight(adjacencyList, e.0, e.1) == e.2
    {
      edges := CollectEdges(GetNodes(), adjacencyList);
      NodesDistinct(adjacencyList, nodeToIdx, idxToNode, nodes);
      forall e ensures e in edges <==> HasEdge(adjacencyList, e.0, e.1) && Weight(adjacencyList, e.0, e.1) == e.2 {
        EdgeListMembers(nodes, adjacencyList, e);
      }
    }

    /** get_adjacency_matrix: the n x n matrix whose entry (i, j) is the weight of the edge from
        node i to node j, 0 where there is none, with the nodes in index order. */
    method GetAdjacencyMatrix() returns (matrix: Matrix, nodeIds: seq<NodeId>)
      requires Valid()
      ensures nodeIds == nodes
      ensures IsMatrix(matrix, |nodes|, |nodes|)
      ensures forall i, j :: 0 <= i < |nodes| && 0 <= j < |nodes| ==>
        matrix[i][j] == WeightOr0(adjacencyList, nodes[i], nodes[j])
    {
      nodeIds := GetNodes();
      matrix := DenseMatrix(adjacencyList, nodeToIdx, idxToNode, nodeIds);
    }

    /** get_dangling_nodes: entry i says whether node i has no outgoing entry at all (an edge of
        weight 0 still counts as an edge). */
    method GetDanglingNodes() returns (mask: seq<bool>)
      requires Valid()
      ensures |mask| == |nodes|
      ensures forall i :: 0 <= i < |nodes| ==> (mask[i] <==> forall v :: !HasEdge(adjacencyList, nodes[i], v))
    {
      mask := DanglingMask(GetNodes(), adjacencyList, nodeToIdx);
      DanglingIffNoEdges(adjacencyList, nodeToIdx, idxToNode, nodes);
    }

    /** subgraph: a new graph of the same directedness holding the requested nodes the graph
        has and every edge between two of them, with its weight; this graph is not changed. */
    method Subgraph(keep: set<NodeId>) returns (sub: SparseGraph)
      requires Valid()
      ensures fresh(sub) && sub.Valid() && sub.directed == directed
      ensures sub.adjacencyList.Keys == keep * adjacencyList.Keys
      ensures forall u, v :: HasEdge(sub.adjacencyList, u, v) <==> u in keep && v in keep && HasEdge(adjacencyList, u, v)
      ensures forall u, v :: HasEdge(sub.adjacencyList, u, v) ==> Weight(sub.adjacencyList, u, v) == Weight(adjacencyList, u, v)
    {
      sub := new SparseGraph(directed);
      var order := Enumerate(keep);
      CopyNodes(sub, adjacencyList, keep, order);
      CopyEdges(sub, adjacencyList, keep, order);
    }
  }

  /** The first loop of subgraph: adds, in the order given, every node the graph has. */
  method CopyNodes(sub: SparseGraph, adj: Adjacency, keep: set<NodeId>, order: seq<NodeId>)
    requires sub.Valid() && NoEntries(sub.adjacencyList) && sub.adjacencyList.Keys == {}
    requires forall x :: x in order <==> x in keep
    modifies sub
    ensures sub.Valid() && NoEntries(sub.adjacencyList)
    ensures sub.adjacencyList.Keys == keep * adj.Keys
  {
    for i := 0 to |order|
      invariant sub.Valid() && NoEntries(sub.adjacencyList)
      invariant sub.adjacencyList.Keys == Kept(order[..i], adj)
    {
      KeptStep(order, adj, i);
      CopyNode(sub, adj, order[i]);
    }
    assert order[..|order|] == order;
    KeptAll(order, adj, keep);
  }

  /** One step of the first loop of subgraph: add_node(u) when the graph has u. */
  method CopyNode(sub: SparseGraph, adj: Adjacency, u: NodeId)
    requires sub.Valid() && NoEntries(sub.adjacencyList)
    modifies sub
    ensures sub.Valid() && NoEntries(sub.adjacencyList)
    ensures sub.adjacencyList.Keys == old(sub.adjacencyList.Keys) + (if u in adj then {u} else {})
  {
    if u in adj {
      WithNodeNoEntries(sub.adjacencyList, u);
      sub.AddNode(u);
    }
  }

  /** The second loop of subgraph: for each kept node the graph has, in the order given, adds
      each of its edges whose target is kept. */
  method CopyEdges(sub: SparseGraph, adj: Adjacency, keep: set<NodeId>, order: seq<NodeId>)
    requires sub.Valid() && WellFormed(adj) && (!sub.directed ==> Symmetric(adj))
    requires forall x :: x in order <==> x in keep
    requires NoEntries(sub.adjacencyList) && sub.adjacencyList.Keys == keep * adj.Keys
    modifies sub
    ensures sub.Valid()
    ensures SubgraphSound(sub.adjacencyList, adj, keep) && Copied(sub.adjacencyList, adj, keep, keep)
  {
    CopyEdgesStart(sub.adjacencyList, adj, keep);
    for i := 0 to |order|
      invariant sub.Valid() && SubgraphSound(sub.adjacencyList, adj, keep)
      invariant Copied(sub.adjacencyList, adj, keep, Elements(order[..i]))
    {
      assert order[..i + 1][..i] == order[..i];
      CopySource(sub, adj, keep, Elements(order[..i]), order[i]);
    }
    assert order[..|order|] == order;
  }

  /** One step of the second loop of subgraph: copies the edges from `source` to kept nodes. */
  method CopySource(sub: SparseGraph, adj: Adjacency, keep: set<NodeId>, ghost done: set<NodeId>, source: NodeId)
    requires sub.Valid() && WellFormed(adj) && (!sub.directed ==> Symmetric(adj))
    requires SubgraphSound(sub.adjacencyList, adj, keep) && Copied(sub.adjacencyList, adj, keep, done)
    requires source in keep
    modifies sub
    ensures sub.Valid() && SubgraphSound(sub.adjacencyList, adj, keep)
    ensures Copied(sub.adjacencyList, adj, keep, done + {source})
  {
    if source in adj {
      var neighbors := adj[source];
      for k := 0 to |neighbors|
        invariant sub.Valid() && SubgraphSound(sub.adjacencyList, adj, keep)
        invariant Copied(sub.adjacencyList, adj, keep, done)
        invariant PrefixCopied(sub.adjacencyList, adj, keep, source, k)
      {
        var target, weight := neighbors[k].0, neighbors[k].1;
        CopyEdgeStep(sub.adjacencyList, adj, keep, sub.directed, done, source, k);
        if target in keep {
          sub.AddEdge(source, target, weight);
        }
      }
    }
    CopySourceDone(sub.adjacencyList, adj, keep, done, source);
  }
}
