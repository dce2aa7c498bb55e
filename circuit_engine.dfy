/*
 * The engine's own state and its per-frame step: the node, edge and pulse
 * lists, the frame and spawn clocks, resizing (which rebuilds the network),
 * spawning, and animate's update of pulses followed by draw's glow update.
 */
module CircuitEngine {
  import opened CircuitBase
  import opened CircuitGraph
  import opened CircuitPulse
  import opened CircuitGlow

  /** The frame step in seconds, min((timestamp - lastTime) / 1000, 0.1). */
  function FrameDelta(timestamp: real, lastTime: real): (dt: real)
    ensures dt <= 0.1
    ensures timestamp >= lastTime ==> dt >= 0.0
    ensures dt == 0.1 || dt * 1000.0 == timestamp - lastTime
    ensures dt * 1000.0 <= timestamp - lastTime
  {
    Min((timestamp - lastTime) / 1000.0, 0.1)
  }

  /** The spawn cadence: more than SPAWN_INTERVAL ms since the last spawn. */
  predicate SpawnDue(timestamp: real, lastSpawn: real): (due: bool)
    ensures due ==> timestamp > lastSpawn
  {
    timestamp - lastSpawn > SPAWN_INTERVAL
  }

  /**
   * The pulse list after spawnPulse: unchanged at the cap or on an empty
   * graph, otherwise one fresh pulse (draws 0 to 3) appended.
   */
  function Spawned(ps: seq<Pulse>, edgeCount: nat, rng: Rng): (r: seq<Pulse>)
    requires UnitDraws(rng)
    ensures |ps| >= MAX_PULSES || edgeCount == 0 ==> r == ps
    ensures |ps| < MAX_PULSES && edgeCount > 0 ==>
              && |r| == |ps| + 1 && r[..|ps|] == ps
              && PulseOk(r[|ps|], edgeCount)
              && r[|ps|].progress == 0.0 && r[|ps|].pathLength == 0.0 && r[|ps|].life == 1.0
    ensures |ps| <= MAX_PULSES ==> |r| <= MAX_PULSES
  {
    if |ps| >= MAX_PULSES || edgeCount == 0 then ps
    else ps + [FreshPulse(edgeCount, rng(0), rng(1), rng(2), rng(3))]
  }

  predicate GlowOk(g: Glow) { 0.0 <= g.strength <= 1.0 }

  /** Every stored glow is in [0,1]. */
  predicate AllGlowOk(nodes: seq<Node>, edges: seq<Edge>)
  {
    (forall i :: 0 <= i < |nodes| ==> GlowOk(nodes[i].glow)) &&
    (forall j :: 0 <= j < |edges| ==> GlowOk(edges[j].glow))
  }

  /** Every pulse is a live, well-formed pulse and there are at most MAX_PULSES of them. */
  predicate PulsesOk(ps: seq<Pulse>, edgeCount: nat)
  {
    |ps| <= MAX_PULSES && AllPulsesOk(ps, edgeCount)
  }

  /**
   * One frame of draw's glow update: each edge eases towards the influence
   * at its midpoint and each node towards the influence at its centre;
   * nothing else changes.
   */
  predicate GlowStep(n0: seq<Node>, e0: seq<Edge>, n1: seq<Node>, e1: seq<Edge>, ps: seq<Pulse>, num: Numerics)
    requires Sound(num) && Endpoints(n0, e0) && OnGraph(ps, e0)
  {
    && |n1| == |n0| && |e1| == |e0|
    && (forall j :: 0 <= j < |e0| ==> e1[j] == e0[j].(glow := Ease(e0[j].glow, EdgeTarget(e0[j], ps, n0, e0, num))))
    && (forall i :: 0 <= i < |n0| ==> n1[i] == n0[i].(glow := Ease(n0[i].glow, NodeTarget(n0[i], ps, n0, e0, num))))
  }

  /** The engine's invariant on its state: a well-formed graph, glows in [0,1], at most MAX_PULSES live pulses. */
  ghost predicate Consistent(W: nat, fullH: nat, nodes: seq<Node>, edges: seq<Edge>, cells: seq<Cell>, pulses: seq<Pulse>,
                             num: Numerics)
  {
    && Sound(num)
    && GraphOk(W, fullH, nodes, edges, cells, num)
    && Topology(nodes, edges)
    && AllGlowOk(nodes, edges)
    && PulsesOk(pulses, |edges|)
  }

  /** A freshly built network, with no pulses, satisfies the engine's invariant. */
  lemma FreshNetwork(W: nat, fullH: nat, nodes: seq<Node>, edges: seq<Edge>, cells: seq<Cell>, num: Numerics)
    requires Sound(num) && GraphOk(W, fullH, nodes, edges, cells, num) && AtRest(nodes, edges)
    ensures Consistent(W, fullH, nodes, edges, cells, [], num)
  {
    GraphTopology(W, fullH, nodes, edges, cells, num);
  }

  class Circuit {
    const num: Numerics
    var W: nat
    var fullH: nat
    var nodes: seq<Node>
    var edges: seq<Edge>
    var pulses: seq<Pulse>
    var lastTime: real
    var lastSpawn: real
    ghost var cells: seq<Cell>

    ghost predicate Valid()
      reads this
    {
      Consistent(W, fullH, nodes, edges, cells, pulses, num)
    }

    /** Start-up on a desktop-width viewport: size the canvas and build the network. */
    constructor (W: nat, fullH: nat, num: Numerics, rng: Rng)
      requires Sound(num) && UnitDraws(rng)
      requires W >= 1024
      ensures Valid()
      ensures this.W == W && this.fullH == fullH && this.num == num
      ensures AtRest(nodes, edges) && pulses == []
      ensures Placed(W, fullH, rng, Cursors(W, num, rng), nodes, cells, Cell(0, GridCount(fullH)))
      ensures nodes == Built(W, fullH, num, rng).nodes && edges == Built(W, fullH, num, rng).edges
      ensures lastTime == 0.0 && lastSpawn == 0.0
    {
      var ns: seq<Node>, es: seq<Edge>;
      ghost var cs: seq<Cell>;
      ns, es, cs := BuildNetwork(W, fullH, num, rng);
      FreshNetwork(W, fullH, ns, es, cs, num);
      this.num := num;
      this.W := W;
      this.fullH := fullH;
      nodes, edges, cells := ns, es, cs;
      pulses := [];
      lastTime := 0.0;
      lastSpawn := 0.0;
    }

    /** resize: take the new viewport size, rebuild the network and drop all pulses. */
    method Resize(W': nat, fullH': nat, rng: Rng)
      requires Sound(num) && UnitDraws(rng)
      modifies this
      ensures Valid()
      ensures W == W' && fullH == fullH'
      ensures AtRest(nodes, edges) && pulses == []
      ensures Placed(W, fullH, rng, Cursors(W, num, rng), nodes, cells, Cell(0, GridCount(fullH)))
      ensures nodes == Built(W, fullH, num, rng).nodes && edges == Built(W, fullH, num, rng).edges
      ensures lastTime == old(lastTime) && lastSpawn == old(lastSpawn)
    {
      var ns: seq<Node>, es: seq<Edge>;
      ghost var cs: seq<Cell>;
      ns, es, cs := BuildNetwork(W', fullH', num, rng);
      FreshNetwork(W', fullH', ns, es, cs, num);
      W, fullH := W', fullH';
      nodes, edges, cells := ns, es, cs;
      pulses := [];
    }

    /** spawnPulse */
    method SpawnPulse(rng: Rng)
      requires Valid() && UnitDraws(rng)
      modifies this`pulses
      ensures Valid()
      ensures pulses == Spawned(old(pulses), |edges|, rng)
    {
      if |pulses| >= MAX_PULSES || |edges| == 0 {
        return;
      }
      pulses := pulses + [FreshPulse(|edges|, rng(0), rng(1), rng(2), rng(3))];
    }

    /**
     * One animation frame: clamp the time step, spawn on cadence, advance
     * every pulse (pulse i uses draw 4 + i), drop the dead ones, then run
     * draw's glow update against the surviving pulses.
     */
    method Animate(timestamp: real, rng: Rng)
      requires Valid() && UnitDraws(rng)
      requires timestamp >= lastTime
      modifies this`pulses, this`lastTime, this`lastSpawn, this`nodes, this`edges
      ensures Valid()
      ensures lastTime == timestamp
      ensures lastSpawn == if SpawnDue(timestamp, old(lastSpawn)) then timestamp else old(lastSpawn)
      ensures pulses == Alive(AdvanceAll(Pending(old(pulses), SpawnDue(timestamp, old(lastSpawn)), |old(edges)|, rng),
                                         FrameDelta(timestamp, old(lastTime)), rng, old(nodes), old(edges), num))
      ensures |edges| == |old(edges)|
      ensures GlowStep(old(nodes), old(edges), nodes, edges, pulses, num)
    {
      StepPulses(timestamp, rng);
      UpdateGlow();
    }

    /** The pulse half of animate: clocks, spawn, advance and filter. */
    method StepPulses(timestamp: real, rng: Rng)
      requires Valid() && UnitDraws(rng)
      requires timestamp >= lastTime
      modifies this`pulses, this`lastTime, this`lastSpawn
      ensures Valid()
      ensures lastTime == timestamp
      ensures lastSpawn == if SpawnDue(timestamp, old(lastSpawn)) then timestamp else old(lastSpawn)
      ensures pulses == Alive(AdvanceAll(Pending(old(pulses), SpawnDue(timestamp, old(lastSpawn)), |edges|, rng),
                                         FrameDelta(timestamp, old(lastTime)), rng, nodes, edges, num))
    {
      var dt := FrameDelta(timestamp, lastTime);
      var due := SpawnDue(timestamp, lastSpawn);
      if due {
        SpawnPulse(rng);
      }
      var survivors := UpdatePulses(pulses, dt, rng, nodes, edges, num);
      pulses := survivors;
      lastTime := timestamp;
      if due {
        lastSpawn := timestamp;
      }
    }

    /** The glow update of draw: edges first, then nodes. */
    method UpdateGlow()
      requires Valid()
      modifies this`nodes, this`edges
      ensures Valid()
      ensures GlowStep(old(nodes), old(edges), nodes, edges, pulses, num)
    {
      var es := EaseEdges(nodes, edges, pulses, num);
      var ns := EaseNodes(nodes, edges, pulses, num);
      GlowKeepsInvariant(W, fullH, nodes, edges, ns, es, cells, pulses, num);
      nodes, edges := ns, es;
    }
  }

  /** The pulse list a frame starts from: with a fresh pulse when a spawn is due. */
  function Pending(ps: seq<Pulse>, due: bool, edgeCount: nat, rng: Rng): (r: seq<Pulse>)
    requires UnitDraws(rng)
    ensures PulsesOk(ps, edgeCount) ==> PulsesOk(r, edgeCount)
    ensures !due ==> r == ps
  {
    if due then Spawned(ps, edgeCount, rng) else ps
  }

  /** The pulse update of animate: advance every pulse, then keep only the live ones. */
  method UpdatePulses(ps: seq<Pulse>, dt: real, rng: Rng, nodes: seq<Node>, edges: seq<Edge>, num: Numerics)
    returns (survivors: seq<Pulse>)
    requires Sound(num) && Topology(nodes, edges) && UnitDraws(rng) && dt >= 0.0 && PulsesOk(ps, |edges|)
    ensures survivors == Alive(AdvanceAll(ps, dt, rng, nodes, edges, num))
    ensures PulsesOk(survivors, |edges|)
  {
    var qs := AdvancePulses(ps, dt, rng, nodes, edges, num);
    SurvivorsOk(ps, dt, rng, nodes, edges, num);
    survivors := Alive(qs);
  }

  /** The update loop of animate: advance each pulse in turn. */
  method AdvancePulses(ps: seq<Pulse>, dt: real, rng: Rng, nodes: seq<Node>, edges: seq<Edge>, num: Numerics)
    returns (qs: seq<Pulse>)
    requires Sound(num) && Topology(nodes, edges) && UnitDraws(rng) && AllPulsesOk(ps, |edges|)
    ensures qs == AdvanceAll(ps, dt, rng, nodes, edges, num)
  {
    qs := ps;
    var i := 0;
    while i < |qs|
      invariant 0 <= i <= |qs| == |ps|
      invariant forall j :: 0 <= j < i ==> qs[j] == Advance(ps[j], dt, rng(4 + j), nodes, edges, num)
      invariant forall j :: i <= j < |qs| ==> qs[j] == ps[j]
    {
      assert PulseOk(ps[i], |edges|);
      var q := Advance(ps[i], dt, rng(4 + i), nodes, edges, num);
      qs := qs[i := q];
      i := i + 1;
    }
  }

  /** The edge half of draw's glow loop: ease every edge towards the influence at its midpoint. */
  method EaseEdges(nodes: seq<Node>, edges: seq<Edge>, ps: seq<Pulse>, num: Numerics) returns (es: seq<Edge>)
    requires Sound(num) && Endpoints(nodes, edges) && OnGraph(ps, edges)
    ensures |es| == |edges|
    ensures forall j :: 0 <= j < |edges| ==> es[j] == edges[j].(glow := Ease(edges[j].glow, EdgeTarget(edges[j], ps, nodes, edges, num)))
  {
    es := edges;
    var j := 0;
    while j < |edges|
      invariant 0 <= j <= |edges| == |es|
      invariant forall m :: 0 <= m < j ==> es[m] == edges[m].(glow := Ease(edges[m].glow, EdgeTarget(edges[m], ps, nodes, edges, num)))
      invariant forall m :: j <= m < |edges| ==> es[m] == edges[m]
    {
      assert edges[j].from < |nodes| && edges[j].to < |nodes|;
      var target := EdgeTarget(edges[j], ps, nodes, edges, num);
      es := es[j := edges[j].(glow := Ease(edges[j].glow, target))];
      j := j + 1;
    }
  }

  /** The node half of draw's glow loop: ease every node towards the influence at its centre. */
  method EaseNodes(nodes: seq<Node>, edges: seq<Edge>, ps: seq<Pulse>, num: Numerics) returns (ns: seq<Node>)
    requires Sound(num) && Endpoints(nodes, edges) && OnGraph(ps, edges)
    ensures |ns| == |nodes|
    ensures forall i :: 0 <= i < |nodes| ==> ns[i] == nodes[i].(glow := Ease(nodes[i].glow, NodeTarget(nodes[i], ps, nodes, edges, num)))
  {
    ns := nodes;
    var i := 0;
    while i < |nodes|
      invariant 0 <= i <= |nodes| == |ns|
      invariant forall m :: 0 <= m < i ==> ns[m] == nodes[m].(glow := Ease(nodes[m].glow, NodeTarget(nodes[m], ps, nodes, edges, num)))
      invariant forall m :: i <= m < |nodes| ==> ns[m] == nodes[m]
    {
      var target := NodeTarget(nodes[i], ps, nodes, edges, num);
      ns := ns[i := nodes[i].(glow := Ease(nodes[i].glow, target))];
      i := i + 1;
    }
  }

  /** A glow step keeps the network well formed and every glow in [0,1]. */
  lemma GlowKeepsInvariant(W: nat, fullH: nat, n0: seq<Node>, e0: seq<Edge>, n1: seq<Node>, e1: seq<Edge>,
                           cells: seq<Cell>, ps: seq<Pulse>, num: Numerics)
    requires Sound(num) && GraphOk(W, fullH, n0, e0, cells, num) && Topology(n0, e0)
    requires AllGlowOk(n0, e0) && PulsesOk(ps, |e0|)
    requires GlowStep(n0, e0, n1, e1, ps, num)
    ensures GraphOk(W, fullH, n1, e1, cells, num) && Topology(n1, e1) && AllGlowOk(n1, e1)
  {
    GraphOkSameLayout(W, fullH, n0, e0, n1, e1, cells, num);
    GraphTopology(W, fullH, n1, e1, cells, num);
    assert forall i :: 0 <= i < |ps| ==> PulseOk(ps[i], |e0|);
    GlowStepBounded(n0, e0, n1, e1, ps, num);
  }

  /** With every pulse's life in [0,1], a glow step keeps every stored glow in [0,1]. */
  lemma GlowStepBounded(n0: seq<Node>, e0: seq<Edge>, n1: seq<Node>, e1: seq<Edge>, ps: seq<Pulse>, num: Numerics)
    requires Sound(num) && Endpoints(n0, e0) && OnGraph(ps, e0)
    requires forall i :: 0 <= i < |ps| ==> 0.0 <= ps[i].life <= 1.0
    requires AllGlowOk(n0, e0) && GlowStep(n0, e0, n1, e1, ps, num)
    ensures AllGlowOk(n1, e1)
  {
    forall j | 0 <= j < |e0| ensures GlowOk(e1[j].glow) {
      var e := e0[j];
      assert GlowOk(e.glow) && e.from < |n0| && e.to < |n0|;
      EdgeTargetBounded(e, ps, n0, e0, num);
    }
    forall i | 0 <= i < |n0| ensures GlowOk(n1[i].glow) {
      assert GlowOk(n0[i].glow);
      NodeTargetBounded(n0[i], ps, n0, e0, num);
    }
  }
}
