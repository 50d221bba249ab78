/** Track counters of one node of the metric graph (internal/metric/node_graph.go); gauges are not modelled. */
module NodeGraph {
  import opened Wrappers

  datatype GraphNode = GraphNode(tracks: int, mainTracks: int)

  function BuildNode(): GraphNode {
    GraphNode(0, 0)
  }

  /** `on` tells whether the node graph metric is registered. */
  function GraphNodeUpdateInc(node: GraphNode, purpose: string, on: bool): GraphNode {
    if !on then node
    else if purpose == "main" then node.(mainTracks := node.mainTracks + 1)
    else node.(tracks := node.tracks + 1)
  }

  function GraphNodeUpdateDec(node: GraphNode, purpose: string, on: bool): GraphNode {
    if !on then node
    else if purpose == "main" then node.(mainTracks := node.mainTracks - 1)
    else node.(tracks := node.tracks - 1)
  }

  /** The hub's table of ingress nodes after one more track of `session`. */
  function Increased(nodes: map<SessionId, GraphNode>, session: SessionId, purpose: string, on: bool): map<SessionId, GraphNode> {
    var node := if session in nodes then nodes[session] else BuildNode();
    nodes[session := GraphNodeUpdateInc(node, purpose, on)]
  }

  /** And after one track less: a node that reaches zero is dropped, an unknown one is ignored. */
  function Decreased(nodes: map<SessionId, GraphNode>, session: SessionId, purpose: string, on: bool): map<SessionId, GraphNode> {
    if session !in nodes then nodes
    else
      var node := GraphNodeUpdateDec(nodes[session], purpose, on);
      if node.tracks == 0 && node.mainTracks == 0 then nodes - {session} else nodes[session := node]
  }
}
