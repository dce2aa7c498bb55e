/*
 * The graph builder of the circuit background: the content exclusion band,
 * the layout grid, and BuildNetwork, which lays jittered nodes on the grid
 * outside the band and joins each new node to up to four earlier grid
 * neighbours.
 */
module CircuitGraph {
  import opened CircuitBase

  /** A node: position, its index in the node list, the indices of its incident edges, and its glow. */
  datatype Node = Node(x: real, y: real, id: nat, incident: seq<nat>, glow: Glow)

  /** An edge between two node indices, with its cached Euclidean length and its glow. */
  datatype Edge = Edge(from: nat, to: nat, length: real, glow: Glow)

  /** A smoothed glow intensity and the colour it shows. */
  datatype Glow = Glow(strength: real, color: Rgb)

  const DARK: Glow := Glow(0.0, PURPLE)

  // ---------------------------------------------------------------------
  // Content exclusion zone
  // ---------------------------------------------------------------------

  datatype Zone = Zone(left: real, right: real)

  /** Half the width of the central content column for a viewport W pixels wide. */
  function HalfContent(W: nat): real
  {
    Min(1280.0, W as real * 0.55) / 2.0
  }

  /** The central column where page text lives. */
  function ContentZone(W: nat): (z: Zone)
    ensures z.left + z.right == W as real
    ensures z.right - z.left == Min(1280.0, W as real * 0.55)
    ensures 0.0 <= z.left <= z.right <= W as real
  {
    var cx := W as real / 2.0;
    var half := HalfContent(W);
    Zone(cx - half, cx + half)
  }

  /** The content column widened by a 60px margin on both sides (open interval). */
  function InExclusionZone(W: nat, x: real): (inside: bool)
    ensures inside <==> Abs(x - W as real / 2.0) < HalfContent(W) + 60.0
  {
    var z := ContentZone(W);
    x > z.left - 60.0 && x < z.right + 60.0
  }

  // ---------------------------------------------------------------------
  // The layout grid
  // ---------------------------------------------------------------------

  /** Math.ceil(n / GRID) + 1 for a non-negative pixel extent n. */
  function GridCount(n: nat): (c: nat)
    ensures (c - 2) * GRID < n <= (c - 1) * GRID
  {
    (n + GRID - 1) / GRID + 1
  }

  predicate InGrid(c: Cell, W: nat, fullH: nat)
  {
    0 <= c.col < GridCount(W) && 0 <= c.row < GridCount(fullH)
  }

  function BaseX(c: Cell): real { (c.col * GRID) as real }

  function BaseY(c: Cell): real { (c.row * GRID) as real }

  /** Row-major visiting order of the grid walk. */
  predicate Before(a: Cell, b: Cell)
  {
    a.row < b.row || (a.row == b.row && a.col < b.col)
  }

  /** The four earlier cells a new node may connect to, in the order they are tried: left, up, up-left, up-right. */
  function Neighbours(c: Cell): (nbs: seq<Cell>)
    ensures |nbs| == 4
    ensures forall i :: 0 <= i < 4 ==> Before(nbs[i], c)
  {
    [Cell(c.col - 1, c.row), Cell(c.col, c.row - 1), Cell(c.col - 1, c.row - 1), Cell(c.col + 1, c.row - 1)]
  }

  /** Position of a in the neighbour list of b, or 4 when a is not one of them. */
  function NbSlot(a: Cell, b: Cell): (slot: nat)
    ensures slot <= 4
    ensures slot < 4 ==> Neighbours(b)[slot] == a
    ensures forall i :: 0 <= i < 4 && Neighbours(b)[i] == a ==> slot == i
  {
    if a == Cell(b.col - 1, b.row) then 0
    else if a == Cell(b.col, b.row - 1) then 1
    else if a == Cell(b.col - 1, b.row - 1) then 2
    else if a == Cell(b.col + 1, b.row - 1) then 3
    else 4
  }

  predicate BackNeighbour(a: Cell, b: Cell) { NbSlot(a, b) < 4 }

  /** A node's position lies within the jitter square around its cell's corner. */
  predicate Jittered(n: Node, c: Cell)
  {
    -JITTER / 2.0 <= n.x - BaseX(c) < JITTER / 2.0 &&
    -JITTER / 2.0 <= n.y - BaseY(c) < JITTER / 2.0
  }

  // ---------------------------------------------------------------------
  // Incidence
  // ---------------------------------------------------------------------

  predicate Touches(e: Edge, v: nat) { e.from == v || e.to == v }

  /** Indices of all edges with endpoint v, in increasing order: what v's incident list must hold. */
  function Touching(edges: seq<Edge>, v: nat): (r: seq<nat>)
    ensures forall k :: 0 <= k < |r| ==> r[k] < |edges| && Touches(edges[r[k]], v)
    decreases |edges|
  {
    if edges == [] then []
    else
      var n := |edges| - 1;
      Touching(edges[..n], v) + (if Touches(edges[n], v) then [n] else [])
  }

  /** The incident list is in increasing order of edge index, so it has no repeats. */
  lemma {:induction false} TouchingSorted(edges: seq<Edge>, v: nat)
    ensures forall a, b :: 0 <= a < b < |Touching(edges, v)| ==> Touching(edges, v)[a] < Touching(edges, v)[b]
    decreases |edges|
  {
    if edges != [] {
      var n := |edges| - 1;
      TouchingSorted(edges[..n], v);
      var prefix := Touching(edges[..n], v);
      var r := Touching(edges, v);
      assert r == prefix + (if Touches(edges[n], v) then [n] else []);
      forall a, b | 0 <= a < b < |r| ensures r[a] < r[b] {
        if b >= |prefix| {
          assert r[a] == prefix[a] < n == r[b];
        } else {
          assert r[a] == prefix[a] && r[b] == prefix[b];
        }
      }
    }
  }

  /** Every edge with endpoint v is listed. */
  lemma {:induction false} TouchingComplete(edges: seq<Edge>, v: nat, j: nat)
    requires j < |edges| && Touches(edges[j], v)
    ensures j in Touching(edges, v)
    decreases |edges|
  {
    var n := |edges| - 1;
    if j < n {
      TouchingComplete(edges[..n], v, j);
    }
  }

  lemma TouchingNone(edges: seq<Edge>, v: nat)
    requires forall j :: 0 <= j < |edges| ==> !Touches(edges[j], v)
    ensures Touching(edges, v) == []
  {
  }

  /** Appending an edge appends its index to the lists of exactly its endpoints. */
  lemma TouchingAppend(edges: seq<Edge>, e: Edge, v: nat)
    ensures Touching(edges + [e], v) == Touching(edges, v) + (if Touches(e, v) then [|edges|] else [])
  {
    assert (edges + [e])[..|edges|] == edges;
  }

  /** Only the endpoints of edges matter. */
  lemma {:induction false} TouchingSameEnds(e1: seq<Edge>, e2: seq<Edge>, v: nat)
    requires SameEnds(e1, e2)
    ensures Touching(e1, v) == Touching(e2, v)
    decreases |e1|
  {
    if e1 != [] {
      var n := |e1| - 1;
      TouchingSameEnds(e1[..n], e2[..n], v);
    }
  }

  predicate SameEnds(e1: seq<Edge>, e2: seq<Edge>)
  {
    |e1| == |e2| &&
    forall j :: 0 <= j < |e1| ==> e1[j].from == e2[j].from && e1[j].to == e2[j].to && e1[j].length == e2[j].length
  }

  /** Same positions and ids (incident lists and glow may differ). */
  predicate SamePlaces(n1: seq<Node>, n2: seq<Node>)
  {
    |n1| == |n2| &&
    forall i :: 0 <= i < |n1| ==> n1[i].x == n2[i].x && n1[i].y == n2[i].y && n1[i].id == n2[i].id
  }

  predicate SameLayout(n1: seq<Node>, n2: seq<Node>)
  {
    SamePlaces(n1, n2) &&
    forall i :: 0 <= i < |n1| ==> n1[i].incident == n2[i].incident
  }

  // ---------------------------------------------------------------------
  // Well-formedness of a built network
  // ---------------------------------------------------------------------

  /** Node i has id i and sits, jittered, on a grid cell outside the band; cells are visited in row-major order. */
  ghost predicate NodesOk(W: nat, fullH: nat, nodes: seq<Node>, cells: seq<Cell>)
  {
    && |cells| == |nodes|
    && (forall i :: 0 <= i < |nodes| ==>
          nodes[i].id == i && InGrid(cells[i], W, fullH) &&
          !InExclusionZone(W, BaseX(cells[i])) && Jittered(nodes[i], cells[i]))
    && (forall i, j :: 0 <= i < j < |cells| ==> Before(cells[i], cells[j]))
  }

  /** An edge joins an earlier node to a later one on a backward neighbour cell, its midpoint avoids the band, and its length is cached. */
  ghost predicate EdgeOk(W: nat, nodes: seq<Node>, cells: seq<Cell>, num: Numerics, e: Edge)
  {
    && e.from < e.to < |nodes| && |cells| == |nodes|
    && BackNeighbour(cells[e.from], cells[e.to])
    && !InExclusionZone(W, (nodes[e.to].x + nodes[e.from].x) / 2.0)
    && e.length == num.hypot(nodes[e.to].x - nodes[e.from].x, nodes[e.to].y - nodes[e.from].y)
  }

  ghost predicate NoDuplicateEdges(edges: seq<Edge>)
  {
    forall j, k :: 0 <= j < k < |edges| ==> edges[j].from != edges[k].from || edges[j].to != edges[k].to
  }

  predicate IncidenceOk(nodes: seq<Node>, edges: seq<Edge>)
  {
    forall i :: 0 <= i < |nodes| ==> nodes[i].incident == Touching(edges, i)
  }

  ghost predicate GraphOk(W: nat, fullH: nat, nodes: seq<Node>, edges: seq<Edge>, cells: seq<Cell>, num: Numerics)
  {
    && NodesOk(W, fullH, nodes, cells)
    && (forall j :: 0 <= j < |edges| ==> EdgeOk(W, nodes, cells, num, edges[j]))
    && NoDuplicateEdges(edges)
    && IncidenceOk(nodes, edges)
  }

  /** What the pulse simulator needs of a graph: valid endpoints, positive lengths, exact incident lists. */
  ghost predicate Topology(nodes: seq<Node>, edges: seq<Edge>)
  {
    && (forall j :: 0 <= j < |edges| ==> edges[j].from < edges[j].to < |nodes| && edges[j].length > 0.0)
    && IncidenceOk(nodes, edges)
  }

  predicate AtRest(nodes: seq<Node>, edges: seq<Edge>)
  {
    (forall i :: 0 <= i < |nodes| ==> nodes[i].glow == DARK) &&
    (forall j :: 0 <= j < |edges| ==> edges[j].glow == DARK)
  }

  /** Neighbouring cells are a grid step apart, and jitter is smaller than a step, so every edge is longer than 56px. */
  lemma EdgeLengthBound(W: nat, fullH: nat, nodes: seq<Node>, edges: seq<Edge>, cells: seq<Cell>, num: Numerics, j: nat)
    requires Sound(num)
    requires GraphOk(W, fullH, nodes, edges, cells, num)
    requires j < |edges|
    ensures edges[j].length > GRID as real - JITTER
  {
    var e := edges[j];
    assert EdgeOk(W, nodes, cells, num, e);
    var a, b := cells[e.from], cells[e.to];
    assert Jittered(nodes[e.from], a) && Jittered(nodes[e.to], b);
    var dx := nodes[e.to].x - nodes[e.from].x;
    var dy := nodes[e.to].y - nodes[e.from].y;
    assert e.length >= Abs(dx) && e.length >= Abs(dy);
    if NbSlot(a, b) == 0 {
      assert BaseX(b) - BaseX(a) == 80.0;
    } else {
      assert BaseY(b) - BaseY(a) == 80.0;
    }
  }

  /**
   * The band test looks at the un-jittered x only, so a node may reach up to
   * half the jitter into the band, and no further.
   */
  lemma NodeNearBand(W: nat, fullH: nat, nodes: seq<Node>, cells: seq<Cell>, i: nat)
    requires NodesOk(W, fullH, nodes, cells) && i < |nodes|
    ensures Abs(nodes[i].x - W as real / 2.0) >= HalfContent(W) + 60.0 - JITTER / 2.0
  {
    assert !InExclusionZone(W, BaseX(cells[i])) && Jittered(nodes[i], cells[i]);
  }

  lemma GraphTopology(W: nat, fullH: nat, nodes: seq<Node>, edges: seq<Edge>, cells: seq<Cell>, num: Numerics)
    requires Sound(num)
    requires GraphOk(W, fullH, nodes, edges, cells, num)
    ensures Topology(nodes, edges)
  {
    forall j | 0 <= j < |edges|
      ensures edges[j].from < edges[j].to < |nodes| && edges[j].length > 0.0
    {
      assert EdgeOk(W, nodes, cells, num, edges[j]);
      EdgeLengthBound(W, fullH, nodes, edges, cells, num, j);
    }
  }

  /** No two edges join the same pair of nodes, in either orientation. */
  lemma NoParallelEdges(W: nat, fullH: nat, nodes: seq<Node>, edges: seq<Edge>, cells: seq<Cell>, num: Numerics, j: nat, k: nat)
    requires GraphOk(W, fullH, nodes, edges, cells, num)
    requires j < |edges| && k < |edges| && j != k
    ensures edges[j].from != edges[k].from || edges[j].to != edges[k].to
    ensures edges[j].from != edges[k].to || edges[j].to != edges[k].from
  {
    assert EdgeOk(W, nodes, cells, num, edges[j]) && EdgeOk(W, nodes, cells, num, edges[k]);
    if j < k {
      assert edges[j].from != edges[k].from || edges[j].to != edges[k].to;
    } else {
      assert edges[k].from != edges[j].from || edges[k].to != edges[j].to;
    }
  }

  /** Redrawing changes glow only; the network stays well formed. */
  lemma GraphOkSameLayout(W: nat, fullH: nat, n1: seq<Node>, e1: seq<Edge>, n2: seq<Node>, e2: seq<Edge>, cells: seq<Cell>, num: Numerics)
    requires GraphOk(W, fullH, n1, e1, cells, num)
    requires SameLayout(n1, n2) && SameEnds(e1, e2)
    ensures GraphOk(W, fullH, n2, e2, cells, num)
  {
    NodesOkSamePlaces(W, fullH, n1, n2, cells);
    EdgesOkSamePlaces(W, n1, e1, n2, e2, cells, num);
    forall j, k | 0 <= j < k < |e2| ensures e2[j].from != e2[k].from || e2[j].to != e2[k].to {
      assert e1[j].from != e1[k].from || e1[j].to != e1[k].to;
    }
    forall i | 0 <= i < |n2| ensures n2[i].incident == Touching(e2, i) {
      TouchingSameEnds(e1, e2, i);
    }
  }

  lemma NodesOkSamePlaces(W: nat, fullH: nat, n1: seq<Node>, n2: seq<Node>, cells: seq<Cell>)
    requires NodesOk(W, fullH, n1, cells)
    requires SamePlaces(n1, n2)
    ensures NodesOk(W, fullH, n2, cells)
  {
    forall i | 0 <= i < |n2|
      ensures n2[i].id == i && InGrid(cells[i], W, fullH)
      ensures !InExclusionZone(W, BaseX(cells[i])) && Jittered(n2[i], cells[i])
    {
      assert Jittered(n1[i], cells[i]);
    }
  }

  lemma EdgesOkSamePlaces(W: nat, n1: seq<Node>, e1: seq<Edge>, n2: seq<Node>, e2: seq<Edge>, cells: seq<Cell>, num: Numerics)
    requires forall j :: 0 <= j < |e1| ==> EdgeOk(W, n1, cells, num, e1[j])
    requires SamePlaces(n1, n2) && SameEnds(e1, e2)
    ensures forall j :: 0 <= j < |e2| ==> EdgeOk(W, n2, cells, num, e2[j])
  {
    forall j | 0 <= j < |e2| ensures EdgeOk(W, n2, cells, num, e2[j]) {
      var e, f := e1[j], e2[j];
      assert EdgeOk(W, n1, cells, num, e);
      assert f.from == e.from && f.to == e.to && f.length == e.length;
      EdgeOkTransfer(W, n1, cells, n2, cells, num, e);
    }
  }

  /** EdgeOk depends only on the positions and cells of the edge's two endpoints. */
  lemma EdgeOkTransfer(W: nat, n1: seq<Node>, c1: seq<Cell>, n2: seq<Node>, c2: seq<Cell>, num: Numerics, e: Edge)
    requires EdgeOk(W, n1, c1, num, e)
    requires e.to < |n2| == |c2|
    requires n2[e.from].x == n1[e.from].x && n2[e.from].y == n1[e.from].y && c2[e.from] == c1[e.from]
    requires n2[e.to].x == n1[e.to].x && n2[e.to].y == n1[e.to].y && c2[e.to] == c1[e.to]
    ensures EdgeOk(W, n2, c2, num, e)
  {
  }

  // ---------------------------------------------------------------------
  // Building the network
  // ---------------------------------------------------------------------

  /** The cell-to-node dictionary of the builder is exactly the inverse of cells. */
  ghost predicate MapOk(nodeMap: map<Cell, nat>, cells: seq<Cell>)
  {
    && (forall i :: 0 <= i < |cells| ==> cells[i] in nodeMap && nodeMap[cells[i]] == i)
    && (forall c :: c in nodeMap ==> nodeMap[c] < |cells| && cells[nodeMap[c]] == c)
  }

  /** The invariant of the grid walk. */
  ghost predicate Building(W: nat, fullH: nat, num: Numerics, nodes: seq<Node>, edges: seq<Edge>, cells: seq<Cell>, nodeMap: map<Cell, nat>)
  {
    GraphOk(W, fullH, nodes, edges, cells, num) && AtRest(nodes, edges) && MapOk(nodeMap, cells)
  }

  /**
   * The invariant of the neighbour loop for the newest node: edges from
   * index e0 on end at it and come from the neighbours tried before slot i.
   */
  ghost predicate Segment(nodes: seq<Node>, edges: seq<Edge>, cells: seq<Cell>, e0: nat, i: nat)
  {
    && 0 < |nodes| == |cells| && i <= 4 && e0 <= |edges|
    && (forall m :: 0 <= m < e0 ==> edges[m].to < |nodes| - 1)
    && (forall m :: e0 <= m < |edges| ==>
          edges[m].to == |nodes| - 1 && edges[m].from < |cells| && NbSlot(cells[edges[m].from], cells[|nodes| - 1]) < i)
  }

  lemma AppendNodeKeeps(W: nat, fullH: nat, num: Numerics, nodes: seq<Node>, edges: seq<Edge>, cells: seq<Cell>,
                        nodeMap: map<Cell, nat>, cell: Cell, n: Node)
    requires Building(W, fullH, num, nodes, edges, cells, nodeMap)
    requires InGrid(cell, W, fullH) && !InExclusionZone(W, BaseX(cell))
    requires forall i :: 0 <= i < |cells| ==> Before(cells[i], cell)
    requires Jittered(n, cell) && n.id == |nodes| && n.incident == [] && n.glow == DARK
    ensures Building(W, fullH, num, nodes + [n], edges, cells + [cell], nodeMap[cell := |nodes|])
    ensures Segment(nodes + [n], edges, cells + [cell], |edges|, 0)
  {
    var nodes', cells' := nodes + [n], cells + [cell];
    assert NodesOk(W, fullH, nodes', cells');
    AppendNodeEdgesOk(W, num, nodes, edges, cells, n, cell);
    AppendNodeIncidence(W, num, nodes, edges, cells, n);
    AppendNodeMap(nodeMap, cells, cell);
  }

  lemma AppendNodeEdgesOk(W: nat, num: Numerics, nodes: seq<Node>, edges: seq<Edge>, cells: seq<Cell>, n: Node, cell: Cell)
    requires |nodes| == |cells|
    requires forall j :: 0 <= j < |edges| ==> EdgeOk(W, nodes, cells, num, edges[j])
    ensures forall j :: 0 <= j < |edges| ==> EdgeOk(W, nodes + [n], cells + [cell], num, edges[j])
    ensures forall j :: 0 <= j < |edges| ==> edges[j].to < |nodes|
  {
    forall j | 0 <= j < |edges| ensures EdgeOk(W, nodes + [n], cells + [cell], num, edges[j]) {
      assert EdgeOk(W, nodes, cells, num, edges[j]);
      EdgeOkTransfer(W, nodes, cells, nodes + [n], cells + [cell], num, edges[j]);
    }
  }

  lemma AppendNodeIncidence(W: nat, num: Numerics, nodes: seq<Node>, edges: seq<Edge>, cells: seq<Cell>, n: Node)
    requires IncidenceOk(nodes, edges) && n.incident == []
    requires forall j :: 0 <= j < |edges| ==> EdgeOk(W, nodes, cells, num, edges[j])
    ensures IncidenceOk(nodes + [n], edges)
  {
    forall j | 0 <= j < |edges| ensures !Touches(edges[j], |nodes|) {
      assert EdgeOk(W, nodes, cells, num, edges[j]);
    }
    TouchingNone(edges, |nodes|);
  }

  lemma AppendNodeMap(nodeMap: map<Cell, nat>, cells: seq<Cell>, cell: Cell)
    requires MapOk(nodeMap, cells)
    requires forall i :: 0 <= i < |cells| ==> Before(cells[i], cell)
    ensures MapOk(nodeMap[cell := |cells|], cells + [cell])
  {
    assert forall c :: c in nodeMap ==> Before(c, cell);
  }

  lemma AppendEdgeKeeps(W: nat, fullH: nat, num: Numerics, nodes: seq<Node>, edges: seq<Edge>, cells: seq<Cell>,
                        nodeMap: map<Cell, nat>, e: Edge, nodes': seq<Node>)
    requires |nodes'| == |nodes|
    requires forall v :: 0 <= v < |nodes| ==>
               nodes'[v] == if Touches(e, v) then nodes[v].(incident := nodes[v].incident + [|edges|]) else nodes[v]
    requires forall m :: 0 <= m < |edges| ==> edges[m].from != e.from || edges[m].to != e.to
    requires EdgeOk(W, nodes, cells, num, e) && e.glow == DARK
    requires Building(W, fullH, num, nodes, edges, cells, nodeMap)
    ensures Building(W, fullH, num, nodes', edges + [e], cells, nodeMap)
  {
    assert SamePlaces(nodes, nodes');
    NodesOkSamePlaces(W, fullH, nodes, nodes', cells);
    AppendEdgeEdgesOk(W, num, nodes, edges, cells, e, nodes');
    AppendEdgeNoDuplicate(edges, e);
    AppendEdgeIncidence(nodes, edges, e, nodes');
    AppendEdgeAtRest(nodes, edges, e, nodes');
  }

  lemma AppendEdgeNoDuplicate(edges: seq<Edge>, e: Edge)
    requires NoDuplicateEdges(edges)
    requires forall m :: 0 <= m < |edges| ==> edges[m].from != e.from || edges[m].to != e.to
    ensures NoDuplicateEdges(edges + [e])
  {
  }

  lemma AppendEdgeAtRest(nodes: seq<Node>, edges: seq<Edge>, e: Edge, nodes': seq<Node>)
    requires AtRest(nodes, edges) && e.glow == DARK
    requires |nodes'| == |nodes|
    requires forall v :: 0 <= v < |nodes| ==> nodes'[v].glow == nodes[v].glow
    ensures AtRest(nodes', edges + [e])
  {
  }

  lemma AppendEdgeEdgesOk(W: nat, num: Numerics, nodes: seq<Node>, edges: seq<Edge>, cells: seq<Cell>, e: Edge, nodes': seq<Node>)
    requires forall j :: 0 <= j < |edges| ==> EdgeOk(W, nodes, cells, num, edges[j])
    requires EdgeOk(W, nodes, cells, num, e)
    requires SamePlaces(nodes, nodes')
    ensures forall j :: 0 <= j < |edges| + 1 ==> EdgeOk(W, nodes', cells, num, (edges + [e])[j])
  {
    var edges' := edges + [e];
    assert forall j :: 0 <= j < |edges'| ==> EdgeOk(W, nodes, cells, num, edges'[j]);
    assert SameEnds(edges', edges');
    EdgesOkSamePlaces(W, nodes, edges', nodes', edges', cells, num);
  }

  lemma AppendEdgeIncidence(nodes: seq<Node>, edges: seq<Edge>, e: Edge, nodes': seq<Node>)
    requires IncidenceOk(nodes, edges)
    requires |nodes'| == |nodes|
    requires forall v :: 0 <= v < |nodes| ==>
               nodes'[v] == if Touches(e, v) then nodes[v].(incident := nodes[v].incident + [|edges|]) else nodes[v]
    ensures IncidenceOk(nodes', edges + [e])
  {
    forall v | 0 <= v < |nodes'| ensures nodes'[v].incident == Touching(edges + [e], v) {
      TouchingAppend(edges, e, v);
    }
  }

  // ---------------------------------------------------------------------
  // The grid walk as a function of the draws
  // ---------------------------------------------------------------------

  /**
   * The builder's state at some point of the walk: the node and edge lists,
   * the cells of the nodes, nodeMap, and the index of the next random draw.
   */
  datatype Builder = Builder(nodes: seq<Node>, edges: seq<Edge>, cells: seq<Cell>, nodeMap: map<Cell, nat>, next: nat)

  /**
   * One pass of the neighbour loop for the newest node on `cell`: a slot
   * holding a node takes one draw, and the edge is added exactly when
   * `Joins` holds for that draw.
   */
  function TrySlot(W: nat, num: Numerics, rng: Rng, s: Builder, cell: Cell, i: nat): (r: Builder)
    requires 0 < |s.nodes| && i < 4
    ensures |r.nodes| == |s.nodes| && r.cells == s.cells && r.nodeMap == s.nodeMap
  {
    var nb := Neighbours(cell)[i];
    if nb !in s.nodeMap then s
    else if Joins(W, s.nodes, s.nodeMap, cell, i, rng(s.next)) then
      var e := NewEdge(s.nodes, s.nodeMap[nb], num);
      s.(nodes := RecordEdge(s.nodes, e, |s.edges|), edges := s.edges + [e], next := s.next + 1)
    else
      s.(next := s.next + 1)
  }

  /** The neighbour loop from slot i on. */
  function Slots(W: nat, num: Numerics, rng: Rng, s: Builder, cell: Cell, i: nat): (r: Builder)
    requires 0 < |s.nodes| && i <= 4
    ensures |r.nodes| == |s.nodes| && r.cells == s.cells && r.nodeMap == s.nodeMap
    decreases 4 - i
  {
    if i == 4 then s else Slots(W, num, rng, TrySlot(W, num, rng, s, cell, i), cell, i + 1)
  }

  /**
   * One cell of the walk: skipped without a draw in the band; otherwise one
   * placement draw, and at most 0.6 places a node jittered by the next two
   * draws and runs the neighbour loop.
   */
  function Visit(W: nat, num: Numerics, rng: Rng, s: Builder, cell: Cell): Builder
  {
    if InExclusionZone(W, BaseX(cell)) then s
    else if rng(s.next) > 0.6 then s.(next := s.next + 1)
    else Slots(W, num, rng, Placing(rng, s, cell), cell, 0)
  }

  /**
   * A kept cell before its neighbour loop: the node, jittered by the two
   * draws after the placement draw, is pushed with id = its index and
   * recorded in nodeMap.
   */
  function Placing(rng: Rng, s: Builder, cell: Cell): (r: Builder)
    ensures |r.nodes| == |s.nodes| + 1 && r.nodes[..|s.nodes|] == s.nodes
    ensures r.nodeMap == s.nodeMap[cell := |s.nodes|] && r.cells == s.cells + [cell] && r.next == s.next + 3
  {
    var node := Node(BaseX(cell) + (rng(s.next + 1) - 0.5) * JITTER, BaseY(cell) + (rng(s.next + 2) - 0.5) * JITTER,
                     |s.nodes|, [], DARK);
    Builder(s.nodes + [node], s.edges, s.cells + [cell], s.nodeMap[cell := |s.nodes|], s.next + 3)
  }

  /** The state of the walk on reaching cell b, rows in order and columns 0 to GridCount(W) - 1 in each. */
  function Walk(W: nat, num: Numerics, rng: Rng, b: Cell): Builder
    requires 0 <= b.row && 0 <= b.col <= GridCount(W)
    decreases b.row, b.col
  {
    if b.col > 0 then
      var c := Cell(b.col - 1, b.row);
      Visit(W, num, rng, Walk(W, num, rng, c), c)
    else if b.row > 0 then Walk(W, num, rng, Cell(GridCount(W), b.row - 1))
    else Builder([], [], [], map[], 0)
  }

  /** The network buildNetwork builds from the draws of rng. */
  function Built(W: nat, fullH: nat, num: Numerics, rng: Rng): Builder
  {
    Walk(W, num, rng, Cell(0, GridCount(fullH)))
  }

  /** The number of neighbour slots from i on whose cell holds a node: the draws the neighbour loop takes. */
  function Present(nodeMap: map<Cell, nat>, cell: Cell, i: nat): (n: nat)
    ensures i <= 4 ==> n <= 4 - i
    decreases 4 - i
  {
    if i >= 4 then 0 else (if Neighbours(cell)[i] in nodeMap then 1 else 0) + Present(nodeMap, cell, i + 1)
  }

  /**
   * The neighbour loop takes one draw per occupied slot, moves no node,
   * keeps the earlier edges and adds at most one edge per slot.
   */
  lemma {:induction false} SlotsEffect(W: nat, num: Numerics, rng: Rng, s: Builder, cell: Cell, i: nat)
    requires 0 < |s.nodes| && i <= 4
    ensures var r := Slots(W, num, rng, s, cell, i);
            && r.next == s.next + Present(s.nodeMap, cell, i)
            && SamePlaces(r.nodes, s.nodes)
            && |s.edges| <= |r.edges| <= |s.edges| + (4 - i) && r.edges[..|s.edges|] == s.edges
    decreases 4 - i
  {
    if i < 4 {
      var t := TrySlot(W, num, rng, s, cell, i);
      SlotsEffect(W, num, rng, t, cell, i + 1);
      var r := Slots(W, num, rng, t, cell, i + 1);
      var nb := Neighbours(cell)[i];
      if nb in s.nodeMap && Joins(W, s.nodes, s.nodeMap, cell, i, rng(s.next)) {
        RecordEdgePlaces(s.nodes, NewEdge(s.nodes, s.nodeMap[nb], num), |s.edges|);
      }
      SamePlacesTrans(r.nodes, t.nodes, s.nodes);
      PrefixTrans(r.edges, t.edges, s.edges);
    }
  }

  /** A cell is never its own neighbour, so adding it to nodeMap does not change the slot count. */
  lemma {:induction false} PresentIgnoresCell(nodeMap: map<Cell, nat>, cell: Cell, v: nat, i: nat)
    ensures Present(nodeMap[cell := v], cell, i) == Present(nodeMap, cell, i)
    decreases 4 - i
  {
    if i < 4 {
      assert Before(Neighbours(cell)[i], cell);
      PresentIgnoresCell(nodeMap, cell, v, i + 1);
    }
  }

  /**
   * The draws one cell takes: none in the band, one for an empty cell, and
   * for a node three plus one per occupied back neighbour.
   */
  lemma VisitDraws(W: nat, num: Numerics, rng: Rng, s: Builder, cell: Cell)
    ensures Visit(W, num, rng, s, cell).next ==
              if InExclusionZone(W, BaseX(cell)) then s.next
              else if rng(s.next) > 0.6 then s.next + 1
              else s.next + 3 + Present(s.nodeMap, cell, 0)
  {
    if !InExclusionZone(W, BaseX(cell)) && !(rng(s.next) > 0.6) {
      PlacingDraws(W, num, rng, s, cell);
    }
  }

  lemma PlacingDraws(W: nat, num: Numerics, rng: Rng, s: Builder, cell: Cell)
    requires !InExclusionZone(W, BaseX(cell)) && !(rng(s.next) > 0.6)
    ensures Visit(W, num, rng, s, cell).next == s.next + 3 + Present(s.nodeMap, cell, 0)
  {
    var t := Placing(rng, s, cell);
    SlotsEffect(W, num, rng, t, cell, 0);
    PresentIgnoresCell(s.nodeMap, cell, |s.nodes|, 0);
  }

  /** A cell that receives a node: the node at the corner jittered by draws jx and jy, then the neighbour pass. */
  lemma VisitNode(W: nat, num: Numerics, rng: Rng, k0: nat, nodes0: seq<Node>, edges0: seq<Edge>, cells0: seq<Cell>,
                  nodeMap0: map<Cell, nat>, cell: Cell, jx: real, jy: real)
    requires !InExclusionZone(W, BaseX(cell)) && !(rng(k0) > 0.6)
    requires jx == rng(k0 + 1) && jy == rng(k0 + 2)
    ensures Visit(W, num, rng, Builder(nodes0, edges0, cells0, nodeMap0, k0), cell) ==
              Slots(W, num, rng, Builder(nodes0 + [Node(BaseX(cell) + (jx - 0.5) * JITTER, BaseY(cell) + (jy - 0.5) * JITTER, |nodes0|, [], DARK)],
                                         edges0, cells0 + [cell], nodeMap0[cell := |nodes0|], k0 + 3), cell, 0)
  {
    assert Placing(rng, Builder(nodes0, edges0, cells0, nodeMap0, k0), cell) ==
           Builder(nodes0 + [Node(BaseX(cell) + (jx - 0.5) * JITTER, BaseY(cell) + (jy - 0.5) * JITTER, |nodes0|, [], DARK)],
                   edges0, cells0 + [cell], nodeMap0[cell := |nodes0|], k0 + 3);
  }

  /** TryNeighbour's outcome is the reference pass `TrySlot`. */
  lemma TrySlotMatches(W: nat, num: Numerics, rng: Rng, k0: nat, nodes0: seq<Node>, edges0: seq<Edge>, cells: seq<Cell>,
                       nodeMap: map<Cell, nat>, cell: Cell, i: nat, nodes: seq<Node>, edges: seq<Edge>, k: nat)
    requires 0 < |nodes0| && i < 4
    requires k == if Neighbours(cell)[i] in nodeMap then k0 + 1 else k0
    requires Joins(W, nodes0, nodeMap, cell, i, rng(k0)) ==>
               edges == edges0 + [NewEdge(nodes0, nodeMap[Neighbours(cell)[i]], num)] &&
               nodes == RecordEdge(nodes0, edges[|edges0|], |edges0|)
    requires !Joins(W, nodes0, nodeMap, cell, i, rng(k0)) ==> edges == edges0 && nodes == nodes0
    ensures Builder(nodes, edges, cells, nodeMap, k) == TrySlot(W, num, rng, Builder(nodes0, edges0, cells, nodeMap, k0), cell, i)
  {
  }

  /**
   * buildNetwork: walk the cols x rows grid row by row; skip cells whose
   * un-jittered x lies in the band; place a node with the remaining
   * probability; connect it to earlier neighbours. Random draws come from
   * rng in the order the source makes them, so the result is `Built`.
   */
  method BuildNetwork(W: nat, fullH: nat, num: Numerics, rng: Rng)
    returns (nodes: seq<Node>, edges: seq<Edge>, ghost cells: seq<Cell>)
    requires UnitDraws(rng)
    ensures nodes == Built(W, fullH, num, rng).nodes && edges == Built(W, fullH, num, rng).edges
    ensures cells == Built(W, fullH, num, rng).cells
    ensures GraphOk(W, fullH, nodes, edges, cells, num)
    ensures AtRest(nodes, edges)
    ensures Placed(W, fullH, rng, Cursors(W, num, rng), nodes, cells, Cell(0, GridCount(fullH)))
  {
    nodes, edges, cells := [], [], [];
    var nodeMap: map<Cell, nat> := map[];
    var k := 0;
    var rows := GridCount(fullH);
    var row := 0;
    while row < rows
      invariant 0 <= row <= rows
      invariant Builder(nodes, edges, cells, nodeMap, k) == Walk(W, num, rng, Cell(0, row))
    {
      nodes, edges, cells, nodeMap, k := WalkRow(W, fullH, num, rng, k, row, nodes, edges, cells, nodeMap);
      row := row + 1;
    }
    WalkOk(W, fullH, num, rng, Cell(0, rows));
  }

  /** One row of the grid walk, column by column. */
  method WalkRow(W: nat, fullH: nat, num: Numerics, rng: Rng, k0: nat, row: nat,
                 nodes0: seq<Node>, edges0: seq<Edge>, ghost cells0: seq<Cell>, nodeMap0: map<Cell, nat>)
    returns (nodes: seq<Node>, edges: seq<Edge>, ghost cells: seq<Cell>, nodeMap: map<Cell, nat>, k: nat)
    requires UnitDraws(rng) && row < GridCount(fullH)
    requires Builder(nodes0, edges0, cells0, nodeMap0, k0) == Walk(W, num, rng, Cell(0, row))
    ensures Builder(nodes, edges, cells, nodeMap, k) == Walk(W, num, rng, Cell(0, row + 1))
    ensures k0 <= k
  {
    nodes, edges, cells, nodeMap, k := nodes0, edges0, cells0, nodeMap0, k0;
    var cols := GridCount(W);
    var col := 0;
    while col < cols
      invariant 0 <= col <= cols && k0 <= k
      invariant Builder(nodes, edges, cells, nodeMap, k) == Walk(W, num, rng, Cell(col, row))
    {
      WalkMapBelow(W, fullH, num, rng, Cell(col, row));
      nodes, edges, cells, nodeMap, k := VisitCell(W, num, rng, k, nodes, edges, cells, nodeMap, Cell(col, row));
      col := col + 1;
    }
  }

  /**
   * One cell of the grid walk: a cell whose un-jittered x is in the band is
   * skipped; otherwise one draw decides placement, and a draw of at most 0.6
   * places a node, jittered by the next two draws, and connects it.
   */
  method VisitCell(W: nat, num: Numerics, rng: Rng, k0: nat,
                   nodes0: seq<Node>, edges0: seq<Edge>, ghost cells0: seq<Cell>, nodeMap0: map<Cell, nat>, cell: Cell)
    returns (nodes: seq<Node>, edges: seq<Edge>, ghost cells: seq<Cell>, nodeMap: map<Cell, nat>, k: nat)
    requires forall c :: c in nodeMap0 ==> nodeMap0[c] < |nodes0|
    ensures Builder(nodes, edges, cells, nodeMap, k) == Visit(W, num, rng, Builder(nodes0, edges0, cells0, nodeMap0, k0), cell)
    ensures |edges0| <= |edges| && edges[..|edges0|] == edges0 && k0 <= k
  {
    ghost var s0 := Builder(nodes0, edges0, cells0, nodeMap0, k0);
    nodes, edges, cells, nodeMap, k := nodes0, edges0, cells0, nodeMap0, k0;
    if !InExclusionZone(W, BaseX(cell)) {
      var place := rng(k);
      k := k + 1;
      if !(place > 0.6) {
        var jx, jy := rng(k), rng(k + 1);
        k := k + 2;
        nodes, edges, cells, nodeMap, k := PlaceNode(W, num, rng, k, nodes0, edges0, cells0, nodeMap0, cell, jx, jy);
        VisitNode(W, num, rng, k0, nodes0, edges0, cells0, nodeMap0, cell, jx, jy);
      } else {
        assert Visit(W, num, rng, s0, cell) == s0.(next := k0 + 1);
      }
    } else {
      assert Visit(W, num, rng, s0, cell) == s0;
    }
  }

  /** The draw cursor of the grid walk on reaching cell c (0 off the grid's columns). */
  ghost function Cursor(W: nat, num: Numerics, rng: Rng, c: Cell): (k: nat)
    ensures 0 <= c.row && 0 <= c.col <= GridCount(W) ==> k == Walk(W, num, rng, c).next
  {
    if 0 <= c.row && 0 <= c.col <= GridCount(W) then Walk(W, num, rng, c).next else 0
  }

  /** `Cursor` as a map from cells to draw indices. */
  ghost function Cursors(W: nat, num: Numerics, rng: Rng): (at: Cell -> nat)
    ensures forall c :: at(c) == Cursor(W, num, rng, c)
  {
    c => Cursor(W, num, rng, c)
  }

  /**
   * The placement record of a grid walk up to cell b, where at(c) is the
   * index of the draw the walk makes on reaching c. A band-free grid cell
   * before b holds a node exactly when that placement draw is at most 0.6;
   * the node sits at the cell's corner moved by the next two draws.
   */
  ghost predicate Placed(W: nat, fullH: nat, rng: Rng, at: Cell -> nat, nodes: seq<Node>, cells: seq<Cell>, b: Cell)
  {
    && |cells| == |nodes|
    && (forall c :: InGrid(c, W, fullH) && !InExclusionZone(W, BaseX(c)) && Before(c, b) ==>
          (c in cells <==> !(rng(at(c)) > 0.6)))
    && (forall i :: 0 <= i < |nodes| ==>
          InGrid(cells[i], W, fullH) &&
          nodes[i].x == BaseX(cells[i]) + (rng(at(cells[i]) + 1) - 0.5) * JITTER &&
          nodes[i].y == BaseY(cells[i]) + (rng(at(cells[i]) + 2) - 0.5) * JITTER)
  }

  /** A cell in the band is skipped without a node. */
  lemma PlacedSkip(W: nat, fullH: nat, rng: Rng, at: Cell -> nat, nodes: seq<Node>, cells: seq<Cell>, b: Cell)
    requires Placed(W, fullH, rng, at, nodes, cells, b) && InExclusionZone(W, BaseX(b))
    ensures Placed(W, fullH, rng, at, nodes, cells, Cell(b.col + 1, b.row))
  {
  }

  /** A band-free cell whose placement draw is above 0.6 stays empty. */
  lemma PlacedEmpty(W: nat, fullH: nat, rng: Rng, at: Cell -> nat, nodes: seq<Node>, cells: seq<Cell>, b: Cell)
    requires Placed(W, fullH, rng, at, nodes, cells, b)
    requires InGrid(b, W, fullH) && !InExclusionZone(W, BaseX(b)) && rng(at(b)) > 0.6
    requires forall i :: 0 <= i < |cells| ==> Before(cells[i], b)
    ensures Placed(W, fullH, rng, at, nodes, cells, Cell(b.col + 1, b.row))
  {
    assert b !in cells;
  }

  /** A band-free cell whose placement draw is at most 0.6 gets the next node, jittered by the next two draws. */
  lemma PlacedNode(W: nat, fullH: nat, rng: Rng, at: Cell -> nat, nodes: seq<Node>, cells: seq<Cell>, b: Cell, nodes': seq<Node>)
    requires Placed(W, fullH, rng, at, nodes, cells, b)
    requires InGrid(b, W, fullH) && !InExclusionZone(W, BaseX(b)) && !(rng(at(b)) > 0.6)
    requires forall i :: 0 <= i < |cells| ==> Before(cells[i], b)
    requires SamePlaces(nodes', nodes + [Node(BaseX(b) + (rng(at(b) + 1) - 0.5) * JITTER,
                                              BaseY(b) + (rng(at(b) + 2) - 0.5) * JITTER, |nodes|, [], DARK)])
    ensures Placed(W, fullH, rng, at, nodes', cells + [b], Cell(b.col + 1, b.row))
  {
    assert b !in cells;
  }

  /** The end of a row is the start of the next one. */
  lemma PlacedNextRow(W: nat, fullH: nat, rng: Rng, at: Cell -> nat, nodes: seq<Node>, cells: seq<Cell>, row: int)
    requires Placed(W, fullH, rng, at, nodes, cells, Cell(GridCount(W), row))
    ensures Placed(W, fullH, rng, at, nodes, cells, Cell(0, row + 1))
  {
  }

  /** Visiting a grid cell from builder state s, whose cursor is at(b), extends the placement record past it. */
  lemma VisitPlaced(W: nat, fullH: nat, num: Numerics, rng: Rng, at: Cell -> nat, s: Builder, b: Cell)
    requires InGrid(b, W, fullH) && at(b) == s.next
    requires Placed(W, fullH, rng, at, s.nodes, s.cells, b)
    requires forall i :: 0 <= i < |s.cells| ==> Before(s.cells[i], b)
    ensures var r := Visit(W, num, rng, s, b);
            Placed(W, fullH, rng, at, r.nodes, r.cells, Cell(b.col + 1, b.row))
  {
    if InExclusionZone(W, BaseX(b)) {
      PlacedSkip(W, fullH, rng, at, s.nodes, s.cells, b);
    } else if rng(s.next) > 0.6 {
      PlacedEmpty(W, fullH, rng, at, s.nodes, s.cells, b);
    } else {
      var t := Placing(rng, s, b);
      assert t.nodes == s.nodes + [Node(BaseX(b) + (rng(s.next + 1) - 0.5) * JITTER,
                                        BaseY(b) + (rng(s.next + 2) - 0.5) * JITTER, |s.nodes|, [], DARK)];
      SlotsEffect(W, num, rng, t, b, 0);
      PlacedNode(W, fullH, rng, at, s.nodes, s.cells, b, Slots(W, num, rng, t, b, 0).nodes);
    }
  }

  /** The neighbour loop keeps the builder invariant. */
  lemma {:induction false} SlotsKeeps(W: nat, fullH: nat, num: Numerics, rng: Rng, s: Builder, cell: Cell, i: nat, e0: nat)
    requires i <= 4
    requires Building(W, fullH, num, s.nodes, s.edges, s.cells, s.nodeMap)
    requires Segment(s.nodes, s.edges, s.cells, e0, i) && s.cells[|s.cells| - 1] == cell
    ensures var r := Slots(W, num, rng, s, cell, i);
            Building(W, fullH, num, r.nodes, r.edges, r.cells, r.nodeMap)
    decreases 4 - i
  {
    if i < 4 {
      var t := TrySlot(W, num, rng, s, cell, i);
      TryNeighbourKeeps(W, fullH, num, rng(s.next), s.nodes, s.edges, s.cells, s.nodeMap, cell, e0, i, t.nodes, t.edges);
      SlotsKeeps(W, fullH, num, rng, t, cell, i + 1, e0);
    }
  }

  /** Visiting a grid cell keeps the builder invariant, with every node on a cell visited so far. */
  lemma VisitKeeps(W: nat, fullH: nat, num: Numerics, rng: Rng, s: Builder, cell: Cell)
    requires UnitDraws(rng) && InGrid(cell, W, fullH)
    requires Building(W, fullH, num, s.nodes, s.edges, s.cells, s.nodeMap)
    requires forall i :: 0 <= i < |s.cells| ==> Before(s.cells[i], cell)
    ensures var r := Visit(W, num, rng, s, cell);
            && Building(W, fullH, num, r.nodes, r.edges, r.cells, r.nodeMap)
            && forall i :: 0 <= i < |r.cells| ==> Before(r.cells[i], Cell(cell.col + 1, cell.row))
  {
    if !InExclusionZone(W, BaseX(cell)) && !(rng(s.next) > 0.6) {
      var t := Placing(rng, s, cell);
      var n := t.nodes[|s.nodes|];
      assert t.nodes == s.nodes + [n];
      AppendNodeKeeps(W, fullH, num, s.nodes, s.edges, s.cells, s.nodeMap, cell, n);
      SlotsKeeps(W, fullH, num, rng, t, cell, 0, |s.edges|);
    }
  }

  /**
   * On reaching any cell of the grid (or the start of the row past the
   * last), the walk has built a well-formed, dark network of nodes on
   * earlier cells, placed as `Placed` describes.
   */
  lemma {:induction false} WalkOk(W: nat, fullH: nat, num: Numerics, rng: Rng, b: Cell)
    requires UnitDraws(rng)
    requires 0 <= b.row && 0 <= b.col <= GridCount(W)
    requires b.row < GridCount(fullH) || b == Cell(0, GridCount(fullH))
    ensures var s := Walk(W, num, rng, b);
            && Building(W, fullH, num, s.nodes, s.edges, s.cells, s.nodeMap)
            && (forall i :: 0 <= i < |s.cells| ==> Before(s.cells[i], b))
            && Placed(W, fullH, rng, Cursors(W, num, rng), s.nodes, s.cells, b)
    decreases b.row, b.col
  {
    if b.col > 0 {
      var c := Cell(b.col - 1, b.row);
      WalkOk(W, fullH, num, rng, c);
      VisitKeeps(W, fullH, num, rng, Walk(W, num, rng, c), c);
      VisitPlaced(W, fullH, num, rng, Cursors(W, num, rng), Walk(W, num, rng, c), c);
    } else if b.row > 0 {
      var e := Cell(GridCount(W), b.row - 1);
      WalkOk(W, fullH, num, rng, e);
      var s := Walk(W, num, rng, e);
      PlacedNextRow(W, fullH, rng, Cursors(W, num, rng), s.nodes, s.cells, b.row - 1);
    }
  }

  /** Every cell the walk has recorded maps to an existing node. */
  lemma WalkMapBelow(W: nat, fullH: nat, num: Numerics, rng: Rng, b: Cell)
    requires UnitDraws(rng)
    requires 0 <= b.row < GridCount(fullH) && 0 <= b.col <= GridCount(W)
    ensures forall c :: c in Walk(W, num, rng, b).nodeMap ==> Walk(W, num, rng, b).nodeMap[c] < |Walk(W, num, rng, b).nodes|
  {
    WalkOk(W, fullH, num, rng, b);
  }

  /**
   * The body of the grid walk for a cell that receives a node: create the
   * node at the jittered position, record it in nodeMap, then try the four
   * backward neighbours in order.
   */
  method PlaceNode(W: nat, num: Numerics, rng: Rng, k0: nat,
                   nodes0: seq<Node>, edges0: seq<Edge>, ghost cells0: seq<Cell>, nodeMap0: map<Cell, nat>,
                   cell: Cell, jx: real, jy: real)
    returns (nodes: seq<Node>, edges: seq<Edge>, ghost cells: seq<Cell>, nodeMap: map<Cell, nat>, k: nat)
    requires forall c :: c in nodeMap0 ==> nodeMap0[c] < |nodes0|
    ensures cells == cells0 + [cell]
    ensures nodeMap == nodeMap0[cell := |nodes0|]
    ensures SamePlaces(nodes, nodes0 + [Node(BaseX(cell) + (jx - 0.5) * JITTER, BaseY(cell) + (jy - 0.5) * JITTER, |nodes0|, [], DARK)])
    ensures |edges0| <= |edges| <= |edges0| + 4 && edges[..|edges0|] == edges0
    ensures k == k0 + Present(nodeMap0, cell, 0)
    ensures Builder(nodes, edges, cells, nodeMap, k) ==
              Slots(W, num, rng, Builder(nodes0 + [Node(BaseX(cell) + (jx - 0.5) * JITTER, BaseY(cell) + (jy - 0.5) * JITTER, |nodes0|, [], DARK)],
                                         edges0, cells0 + [cell], nodeMap0[cell := |nodes0|], k0), cell, 0)
  {
    var id := |nodes0|;
    var x := BaseX(cell) + (jx - 0.5) * JITTER;
    var y := BaseY(cell) + (jy - 0.5) * JITTER;
    var node := Node(x, y, id, [], DARK);
    cells := cells0 + [cell];
    nodeMap := nodeMap0[cell := id];
    nodes, edges, k := Connect(W, num, rng, k0, nodes0 + [node], edges0, cells, nodeMap, cell);
    PresentIgnoresCell(nodeMap0, cell, id, 0);
  }

  /** The neighbour loop for the newest node, on cell `cell`: try the four backward slots in order. */
  method Connect(W: nat, num: Numerics, rng: Rng, k0: nat,
                 nodes0: seq<Node>, edges0: seq<Edge>, ghost cells: seq<Cell>, nodeMap: map<Cell, nat>, cell: Cell)
    returns (nodes: seq<Node>, edges: seq<Edge>, k: nat)
    requires 0 < |nodes0|
    requires forall c :: c in nodeMap && Before(c, cell) ==> nodeMap[c] < |nodes0| - 1
    ensures SamePlaces(nodes, nodes0)
    ensures |edges0| <= |edges| <= |edges0| + 4 && edges[..|edges0|] == edges0
    ensures k == k0 + Present(nodeMap, cell, 0)
    ensures Builder(nodes, edges, cells, nodeMap, k) == Slots(W, num, rng, Builder(nodes0, edges0, cells, nodeMap, k0), cell, 0)
  {
    nodes, edges, k := nodes0, edges0, k0;
    var i := 0;
    while i < 4
      invariant 0 <= i <= 4 && |nodes| == |nodes0|
      invariant Slots(W, num, rng, Builder(nodes, edges, cells, nodeMap, k), cell, i) ==
                Slots(W, num, rng, Builder(nodes0, edges0, cells, nodeMap, k0), cell, 0)
    {
      var nodes', edges', k' := TryNeighbour(W, num, rng, k, nodes, edges, nodeMap, cell, i);
      TrySlotMatches(W, num, rng, k, nodes, edges, cells, nodeMap, cell, i, nodes', edges', k');
      nodes, edges, k := nodes', edges', k';
      i := i + 1;
    }
    SlotsEffect(W, num, rng, Builder(nodes0, edges0, cells, nodeMap, k0), cell, 0);
  }

  /**
   * Whether neighbour slot i of the newest node gets its edge: the
   * neighbour cell holds an earlier node, the draw keeps the edge, and the
   * edge's midpoint lies outside the band.
   */
  predicate Joins(W: nat, nodes: seq<Node>, nodeMap: map<Cell, nat>, cell: Cell, i: nat, draw: real)
    requires 0 < |nodes| && i < 4
  {
    var nb := Neighbours(cell)[i];
    && nb in nodeMap && nodeMap[nb] < |nodes| - 1
    && !(draw > 0.5)
    && !InExclusionZone(W, (nodes[|nodes| - 1].x + nodes[nodeMap[nb]].x) / 2.0)
  }

  /**
   * One pass of the neighbour loop for the newest node, on cell `cell`:
   * look up neighbour slot i; when it holds a node, draw; on a kept draw add
   * the edge unless its midpoint lies in the band. TryNeighbourKeeps shows
   * that the new state keeps the grid-walk invariant.
   */
  method TryNeighbour(W: nat, num: Numerics, rng: Rng, k0: nat,
                      nodes0: seq<Node>, edges0: seq<Edge>, nodeMap: map<Cell, nat>, cell: Cell, i: nat)
    returns (nodes: seq<Node>, edges: seq<Edge>, k: nat)
    requires 0 < |nodes0| && i < 4
    requires forall c :: c in nodeMap && Before(c, cell) ==> nodeMap[c] < |nodes0| - 1
    ensures k == if Neighbours(cell)[i] in nodeMap then k0 + 1 else k0
    ensures Joins(W, nodes0, nodeMap, cell, i, rng(k0)) ==>
              edges == edges0 + [NewEdge(nodes0, nodeMap[Neighbours(cell)[i]], num)] &&
              nodes == RecordEdge(nodes0, edges[|edges0|], |edges0|)
    ensures !Joins(W, nodes0, nodeMap, cell, i, rng(k0)) ==> edges == edges0 && nodes == nodes0
    ensures SamePlaces(nodes, nodes0) && |edges0| <= |edges| && edges[..|edges0|] == edges0
  {
    nodes, edges, k := nodes0, edges0, k0;
    var id := |nodes| - 1;
    var x := nodes[id].x;
    var nb := Neighbours(cell)[i];
    if nb in nodeMap {
      var keep := rng(k);
      k := k + 1;
      if !(keep > 0.5) {
        var f := nodeMap[nb];
        var midX := (x + nodes[f].x) / 2.0;
        if !InExclusionZone(W, midX) {
          var e := NewEdge(nodes0, f, num);
          edges := edges0 + [e];
          nodes := RecordEdge(nodes0, e, |edges0|);
          RecordEdgePlaces(nodes0, e, |edges0|);
        }
      }
    }
  }

  /** One neighbour attempt keeps the grid-walk invariant and extends the per-node segment invariant to the next slot. */
  lemma TryNeighbourKeeps(W: nat, fullH: nat, num: Numerics, draw: real, nodes0: seq<Node>, edges0: seq<Edge>,
                          cells: seq<Cell>, nodeMap: map<Cell, nat>, cell: Cell, e0: nat, i: nat,
                          nodes: seq<Node>, edges: seq<Edge>)
    requires i < 4
    requires Building(W, fullH, num, nodes0, edges0, cells, nodeMap)
    requires Segment(nodes0, edges0, cells, e0, i)
    requires cells[|cells| - 1] == cell
    requires Joins(W, nodes0, nodeMap, cell, i, draw) ==>
               edges == edges0 + [NewEdge(nodes0, nodeMap[Neighbours(cell)[i]], num)] &&
               nodes == RecordEdge(nodes0, edges[|edges0|], |edges0|)
    requires !Joins(W, nodes0, nodeMap, cell, i, draw) ==> edges == edges0 && nodes == nodes0
    ensures Building(W, fullH, num, nodes, edges, cells, nodeMap)
    ensures Segment(nodes, edges, cells, e0, i + 1)
  {
    SegmentSkip(nodes0, edges0, cells, e0, i);
    if Joins(W, nodes0, nodeMap, cell, i, draw) {
      BuildingNeighbour(W, fullH, num, nodes0, edges0, cells, nodeMap, i);
      var f := nodeMap[Neighbours(cell)[i]];
      var e := NewEdge(nodes0, f, num);
      NewEdgeFresh(nodes0, edges0, cells, e0, i, e);
      BuildingAdd(W, fullH, num, nodes0, edges0, cells, nodeMap, f);
      SegmentAdd(nodes0, edges0, cells, e0, i, e, RecordEdge(nodes0, e, |edges0|));
    }
  }

  lemma SamePlacesTrans(a: seq<Node>, b: seq<Node>, c: seq<Node>)
    requires SamePlaces(a, b) && SamePlaces(b, c)
    ensures SamePlaces(a, c)
  {
  }

  lemma PrefixTrans(a: seq<Edge>, b: seq<Edge>, c: seq<Edge>)
    requires |c| <= |b| <= |a| && a[..|b|] == b && b[..|c|] == c
    ensures a[..|c|] == c
  {
    assert forall m :: 0 <= m < |c| ==> a[m] == b[m];
  }

  /** Recording an edge moves no node. */
  lemma RecordEdgePlaces(nodes: seq<Node>, e: Edge, j: nat)
    requires e.from < e.to < |nodes|
    ensures SamePlaces(RecordEdge(nodes, e, j), nodes)
  {
  }

  /** The edge pushed for neighbour f of the newest node x, y: from f to the new node, with length hypot(x - f.x, y - f.y). */
  function NewEdge(nodes: seq<Node>, f: nat, num: Numerics): (e: Edge)
    requires f < |nodes| - 1
    ensures e.from < e.to == |nodes| - 1 && e.from == f && e.glow == DARK
    ensures Sound(num) ==>
              e.length >= Abs(nodes[e.to].x - nodes[e.from].x) && e.length >= Abs(nodes[e.to].y - nodes[e.from].y)
  {
    var node := nodes[|nodes| - 1];
    Edge(f, |nodes| - 1, num.hypot(node.x - nodes[f].x, node.y - nodes[f].y), DARK)
  }

  /** node.edges.push(edge) and neighbor.edges.push(edge): edge index j is recorded at both endpoints of e. */
  function RecordEdge(nodes: seq<Node>, e: Edge, j: nat): (ns: seq<Node>)
    requires e.from < e.to < |nodes|
    ensures |ns| == |nodes|
  {
    var ns := nodes[e.to := nodes[e.to].(incident := nodes[e.to].incident + [j])];
    ns[e.from := ns[e.from].(incident := ns[e.from].incident + [j])]
  }

  /** RecordEdge extends the incident lists of exactly the two endpoints of e and changes nothing else. */
  lemma RecordEdgeEffect(nodes: seq<Node>, e: Edge, j: nat)
    requires e.from < e.to < |nodes|
    ensures var ns := RecordEdge(nodes, e, j);
            forall v :: 0 <= v < |nodes| ==>
              ns[v] == if Touches(e, v) then nodes[v].(incident := nodes[v].incident + [j]) else nodes[v]
  {
  }

  /** A neighbour found in nodeMap while adding the newest node is an earlier node, on its slot i. */
  lemma BuildingNeighbour(W: nat, fullH: nat, num: Numerics, nodes: seq<Node>, edges: seq<Edge>, cells: seq<Cell>,
                          nodeMap: map<Cell, nat>, i: nat)
    requires i < 4 && |cells| > 0 && Building(W, fullH, num, nodes, edges, cells, nodeMap)
    requires Neighbours(cells[|cells| - 1])[i] in nodeMap
    ensures nodeMap[Neighbours(cells[|cells| - 1])[i]] < |nodes| - 1
    ensures NbSlot(cells[nodeMap[Neighbours(cells[|cells| - 1])[i]]], cells[|cells| - 1]) == i
  {
    NeighbourIsEarlier(nodeMap, cells, i);
    NeighbourSlot(nodeMap, cells, i);
  }

  /** A neighbour found in nodeMap is an earlier node. */
  lemma NeighbourIsEarlier(nodeMap: map<Cell, nat>, cells: seq<Cell>, i: nat)
    requires MapOk(nodeMap, cells) && |cells| > 0 && i < 4
    requires forall a, b :: 0 <= a < b < |cells| ==> Before(cells[a], cells[b])
    requires Neighbours(cells[|cells| - 1])[i] in nodeMap
    ensures nodeMap[Neighbours(cells[|cells| - 1])[i]] < |cells| - 1
  {
    var cell := cells[|cells| - 1];
    var nb := Neighbours(cell)[i];
    assert Before(nb, cell);
  }

  /** A neighbour slot that adds no edge keeps the segment invariant. */
  lemma SegmentSkip(nodes: seq<Node>, edges: seq<Edge>, cells: seq<Cell>, e0: nat, i: nat)
    requires i < 4 && Segment(nodes, edges, cells, e0, i)
    ensures Segment(nodes, edges, cells, e0, i + 1)
  {
  }

  /** Adding a fresh edge from backward neighbour f to the newest node keeps the grid-walk invariant. */
  lemma BuildingAdd(W: nat, fullH: nat, num: Numerics, nodes: seq<Node>, edges: seq<Edge>, cells: seq<Cell>,
                    nodeMap: map<Cell, nat>, f: nat)
    requires Building(W, fullH, num, nodes, edges, cells, nodeMap)
    requires f < |nodes| - 1 && BackNeighbour(cells[f], cells[|nodes| - 1])
    requires !InExclusionZone(W, (nodes[|nodes| - 1].x + nodes[f].x) / 2.0)
    requires forall m :: 0 <= m < |edges| ==> edges[m].from != f || edges[m].to != |nodes| - 1
    ensures Building(W, fullH, num, RecordEdge(nodes, NewEdge(nodes, f, num), |edges|), edges + [NewEdge(nodes, f, num)],
                     cells, nodeMap)
  {
    var e := NewEdge(nodes, f, num);
    RecordEdgeEffect(nodes, e, |edges|);
    NewEdgeOk(W, nodes, cells, num, f);
    AppendEdgeKeeps(W, fullH, num, nodes, edges, cells, nodeMap, e, RecordEdge(nodes, e, |edges|));
  }

  /** The node found in neighbour slot i of the newest cell sits on that cell's slot i. */
  lemma NeighbourSlot(nodeMap: map<Cell, nat>, cells: seq<Cell>, i: nat)
    requires MapOk(nodeMap, cells) && |cells| > 0 && i < 4
    requires Neighbours(cells[|cells| - 1])[i] in nodeMap
    ensures var f := nodeMap[Neighbours(cells[|cells| - 1])[i]];
            f < |cells| && NbSlot(cells[f], cells[|cells| - 1]) == i
  {
  }

  /** An edge from slot i is not among the edges already added from earlier slots, so no edge is pushed twice. */
  lemma NewEdgeFresh(nodes: seq<Node>, edges: seq<Edge>, cells: seq<Cell>, e0: nat, i: nat, e: Edge)
    requires Segment(nodes, edges, cells, e0, i)
    requires e.to == |nodes| - 1 && e.from < |cells| && NbSlot(cells[e.from], cells[|nodes| - 1]) == i
    ensures forall m :: 0 <= m < |edges| ==> edges[m].from != e.from || edges[m].to != e.to
  {
  }

  /** The new edge joins a backward neighbour to the newest node and its midpoint avoids the band. */
  lemma NewEdgeOk(W: nat, nodes: seq<Node>, cells: seq<Cell>, num: Numerics, f: nat)
    requires |cells| == |nodes| && f < |nodes| - 1
    requires BackNeighbour(cells[f], cells[|nodes| - 1])
    requires !InExclusionZone(W, (nodes[|nodes| - 1].x + nodes[f].x) / 2.0)
    ensures EdgeOk(W, nodes, cells, num, NewEdge(nodes, f, num))
  {
  }

  /** Adding the edge from slot i to the newest node extends the segment to slot i + 1. */
  lemma SegmentAdd(nodes: seq<Node>, edges: seq<Edge>, cells: seq<Cell>, e0: nat, i: nat, e: Edge, nodes': seq<Node>)
    requires i < 4 && Segment(nodes, edges, cells, e0, i) && |nodes'| == |nodes|
    requires e.to == |nodes| - 1 && e.from < |cells| && NbSlot(cells[e.from], cells[|nodes| - 1]) == i
    ensures Segment(nodes', edges + [e], cells, e0, i + 1)
  {
  }
}
