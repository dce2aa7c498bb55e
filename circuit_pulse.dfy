/*
 * The pulse state machine: a pulse travels along an edge, and on reaching
 * its end it either dies or moves on to another edge of the node it arrived
 * at. Its brightness ("life") fades in over the first 60px and fades out
 * over the last 30% of its path budget.
 */
module CircuitPulse {
  import opened CircuitBase
  import opened CircuitGraph

  /**
   * A travelling pulse. `edge` is an index into the edge list; `reverse`
   * means it runs from the edge's `to` node towards its `from` node.
   */
  datatype Pulse = Pulse(edge: nat, progress: real, reverse: bool, color: Rgb,
                         life: real, pathLength: real, maxPath: real, dead: bool)

  /** Every edge joins two existing nodes. */
  predicate Endpoints(nodes: seq<Node>, edges: seq<Edge>)
  {
    forall j :: 0 <= j < |edges| ==> edges[j].from < |nodes| && edges[j].to < |nodes|
  }

  /** A live pulse between frames: on an edge, part way along it, within its budget. */
  predicate PulseOk(p: Pulse, edgeCount: nat)
  {
    && p.edge < edgeCount
    && 0.0 <= p.progress < 1.0
    && 0.0 <= p.life <= 1.0
    && p.pathLength >= 0.0
    && 800.0 <= p.maxPath < 2000.0
    && !p.dead
  }

  /** Every pulse of a frame is a live pulse on one of edgeCount edges. */
  predicate AllPulsesOk(ps: seq<Pulse>, edgeCount: nat)
  {
    forall i :: 0 <= i < |ps| ==> PulseOk(ps[i], edgeCount)
  }

  function At(n: Node): Point { Point(n.x, n.y) }

  // ---------------------------------------------------------------------
  // Life curve
  // ---------------------------------------------------------------------

  /**
   * max(0, fadeIn * fadeOut), where fadeIn ramps over the first 60px and
   * fadeOut = 1 - ((t - 0.7) / 0.3)^1.5 once t = pathLength / maxPath passes 0.7.
   */
  function Life(pathLength: real, maxPath: real, num: Numerics): (life: real)
    requires maxPath > 0.0 && Sound(num)
    ensures 0.0 <= life <= 1.0
    ensures pathLength >= maxPath ==> life == 0.0
    ensures 0.0 <= pathLength <= 0.7 * maxPath ==> life == Min(1.0, pathLength / 60.0)
  {
    var t := pathLength / maxPath;
    var fadeIn := Min(1.0, pathLength / 60.0);
    var fadeOut := if t > 0.7 then 1.0 - num.pow15((t - 0.7) / 0.3) else 1.0;
    LifeFacts(pathLength, maxPath, t, fadeIn, fadeOut, num);
    Max(0.0, fadeIn * fadeOut)
  }

  lemma LifeFacts(pathLength: real, maxPath: real, t: real, fadeIn: real, fadeOut: real, num: Numerics)
    requires maxPath > 0.0 && Sound(num)
    requires t == pathLength / maxPath
    requires fadeIn == Min(1.0, pathLength / 60.0)
    requires fadeOut == if t > 0.7 then 1.0 - num.pow15((t - 0.7) / 0.3) else 1.0
    ensures fadeIn <= 1.0 && fadeOut <= 1.0 && fadeIn * fadeOut <= 1.0
    ensures pathLength >= maxPath ==> fadeIn * fadeOut <= 0.0
    ensures 0.0 <= pathLength <= 0.7 * maxPath ==> fadeOut == 1.0
  {
    if t > 0.7 {
      // the fade-out only starts once the pulse has moved
      RatioAbove(pathLength, maxPath);
      assert fadeIn >= 0.0;
    }
    if fadeOut < 0.0 {
      MulNonPos(fadeIn, fadeOut);
    } else if fadeIn >= 0.0 {
      MulAtMostOne(fadeIn, fadeOut);
    } else {
      MulNonPos(fadeOut, fadeIn);
    }
    if pathLength >= maxPath {
      RatioAtLeastOne(pathLength, maxPath);
      assert (t - 0.7) / 0.3 >= 1.0;
      MulNonPos(fadeIn, fadeOut);
    }
    if 0.0 <= pathLength <= 0.7 * maxPath {
      RatioAtMost(pathLength, maxPath);
    }
  }

  lemma MulNonPos(a: real, b: real)
    requires a >= 0.0 && b <= 0.0
    ensures a * b <= 0.0
  {
  }

  lemma MulAtMostOne(a: real, b: real)
    requires 0.0 <= a <= 1.0 && 0.0 <= b <= 1.0
    ensures a * b <= 1.0
  {
    ScaleBetween(a, b);
  }

  lemma RatioAtLeastOne(x: real, m: real)
    requires m > 0.0 && x >= m
    ensures x / m >= 1.0
  {
  }

  lemma RatioAtMost(x: real, m: real)
    requires m > 0.0 && x <= 0.7 * m
    ensures x / m <= 0.7
  {
  }

  lemma RatioAbove(x: real, m: real)
    requires m > 0.0 && x / m > 0.7
    ensures x > 0.0
  {
  }

  // ---------------------------------------------------------------------
  // Spawning
  // ---------------------------------------------------------------------

  /**
   * spawnPulse's new pulse, from four draws in [0,1): which edge, which
   * direction, which colour, and how far it may travel.
   */
  function FreshPulse(edgeCount: nat, rEdge: real, rReverse: real, rColor: real, rPath: real): (p: Pulse)
    requires edgeCount > 0
    requires 0.0 <= rEdge < 1.0 && 0.0 <= rReverse < 1.0 && 0.0 <= rColor < 1.0 && 0.0 <= rPath < 1.0
    ensures PulseOk(p, edgeCount)
    ensures p.progress == 0.0 && p.pathLength == 0.0 && p.life == 1.0
    ensures p.color == PURPLE || p.color == CYAN
  {
    Pulse(edge := PickIndex(rEdge, edgeCount),
          progress := 0.0,
          reverse := rReverse > 0.5,
          color := if rColor > 0.4 then PURPLE else CYAN,
          life := 1.0,
          pathLength := 0.0,
          maxPath := 800.0 + rPath * 1200.0,
          dead := false)
  }

  // ---------------------------------------------------------------------
  // Position
  // ---------------------------------------------------------------------

  /** The node a pulse set out from on its current edge. */
  function Origin(p: Pulse, edges: seq<Edge>): (o: nat)
    requires p.edge < |edges|
    ensures Touches(edges[p.edge], o)
    ensures edges[p.edge].from != edges[p.edge].to ==> (p.reverse <==> o == edges[p.edge].to)
  {
    if p.reverse then edges[p.edge].to else edges[p.edge].from
  }

  /** The node a pulse is heading for on its current edge. */
  function Arrival(p: Pulse, edges: seq<Edge>): (a: nat)
    requires p.edge < |edges|
    ensures multiset{Origin(p, edges), a} == multiset{edges[p.edge].from, edges[p.edge].to}
  {
    if p.reverse then edges[p.edge].from else edges[p.edge].to
  }

  predicate Between(v: real, a: real, b: real) { Min(a, b) <= v <= Max(a, b) }

  /** Linear interpolation stays between its end points. */
  lemma LerpBetween(a: real, b: real, t: real)
    ensures 0.0 <= t <= 1.0 ==> Between(a + (b - a) * t, a, b)
  {
    if 0.0 <= t <= 1.0 {
      var d := b - a;
      var v := a + d * t;
      if a <= b {
        ScaleBetween(d, t);
        assert a <= v <= b;
      } else {
        var e := a - b;
        ScaleBetween(e, t);
        assert d * t == -(e * t);
        assert b <= v <= a;
      }
    }
  }

  lemma ScaleBetween(d: real, t: real)
    requires d >= 0.0 && 0.0 <= t <= 1.0
    ensures 0.0 <= d * t <= d
  {
    assert d - d * t == d * (1.0 - t);
  }

  /** pulsePosition: the point at fraction `progress` of the way from origin to arrival node. */
  function PulsePosition(p: Pulse, nodes: seq<Node>, edges: seq<Edge>): (pos: Point)
    requires p.edge < |edges| && Endpoints(nodes, edges)
    ensures p.progress == 0.0 ==> pos == At(nodes[Origin(p, edges)])
    ensures p.progress == 1.0 ==> pos == At(nodes[Arrival(p, edges)])
    ensures 0.0 <= p.progress <= 1.0 ==>
              Between(pos.x, nodes[Origin(p, edges)].x, nodes[Arrival(p, edges)].x) &&
              Between(pos.y, nodes[Origin(p, edges)].y, nodes[Arrival(p, edges)].y)
  {
    var t := p.progress;
    var a, b := nodes[Origin(p, edges)], nodes[Arrival(p, edges)];
    LerpBetween(a.x, b.x, t);
    LerpBetween(a.y, b.y, t);
    Point(a.x + (b.x - a.x) * t, a.y + (b.y - a.y) * t)
  }

  // ---------------------------------------------------------------------
  // Advancing
  // ---------------------------------------------------------------------

  /** arriveAt.edges.filter(e => e !== pulse.edge) */
  function Without(s: seq<nat>, x: nat): (r: seq<nat>)
    ensures forall y :: y in r <==> y in s && y != x
    ensures |r| <= |s|
  {
    if s == [] then []
    else if s[0] == x then Without(s[1..], x)
    else [s[0]] + Without(s[1..], x)
  }

  /** Progress along the current edge after dt seconds, before any edge change. */
  function Travelled(p: Pulse, dt: real, edges: seq<Edge>): (t: real)
    requires p.edge < |edges| && edges[p.edge].length > 0.0
    ensures dt == 0.0 ==> t == p.progress
  {
    p.progress + (PULSE_SPEED / edges[p.edge].length) * dt
  }

  /**
   * Progress is a fraction of the edge's length: the gain, scaled back by
   * that length, is the PULSE_SPEED * dt pixels covered, and it never goes
   * backwards for a non-negative step.
   */
  lemma TravelledCovers(p: Pulse, dt: real, edges: seq<Edge>)
    requires p.edge < |edges| && edges[p.edge].length > 0.0
    ensures (Travelled(p, dt, edges) - p.progress) * edges[p.edge].length == PULSE_SPEED * dt
    ensures dt >= 0.0 ==> Travelled(p, dt, edges) >= p.progress
  {
    var len := edges[p.edge].length;
    assert (PULSE_SPEED / len) * len == PULSE_SPEED;
    assert (PULSE_SPEED / len) * dt * len == PULSE_SPEED * dt;
  }

  /** The arrival node has no edge besides the pulse's own. */
  predicate DeadEnd(edges: seq<Edge>, v: nat, current: nat)
  {
    forall j :: 0 <= j < |edges| && Touches(edges[j], v) ==> j == current
  }

  /**
   * advancePulse for one frame of dt seconds. r is the draw that picks the
   * next edge; it is used only when the pulse moves on.
   */
  function Advance(p: Pulse, dt: real, r: real, nodes: seq<Node>, edges: seq<Edge>, num: Numerics): (q: Pulse)
    requires Sound(num) && Topology(nodes, edges)
    requires p.edge < |edges| && p.maxPath > 0.0 && !p.dead && 0.0 <= r < 1.0
    // what every frame does
    ensures q.pathLength == p.pathLength + PULSE_SPEED * dt
    ensures q.life == Life(q.pathLength, p.maxPath, num)
    ensures q.maxPath == p.maxPath && q.color == p.color && q.edge < |edges|
    // still on the edge
    ensures Travelled(p, dt, edges) < 1.0 ==>
              q == p.(progress := Travelled(p, dt, edges), pathLength := q.pathLength, life := q.life)
    // reached the end: dies exactly at a dead end or when faded, and is otherwise unchanged
    ensures Travelled(p, dt, edges) >= 1.0 ==>
              (q.dead <==> DeadEnd(edges, Arrival(p, edges), p.edge) || q.life <= 0.05)
    ensures q.dead ==>
              q == p.(progress := Travelled(p, dt, edges), pathLength := q.pathLength, life := q.life, dead := true)
    // reached the end: moves on to another edge of the arrival node, starting from it
    ensures Travelled(p, dt, edges) >= 1.0 && !q.dead ==>
              && q.edge != p.edge
              && Touches(edges[q.edge], Arrival(p, edges))
              && q.progress == 0.0
              && q.reverse == (edges[q.edge].to == Arrival(p, edges))
              && Origin(q, edges) == Arrival(p, edges)
              && PulsePosition(q, nodes, edges) == At(nodes[Arrival(p, edges)])
  {
    var progress := Travelled(p, dt, edges);
    var pathLength := p.pathLength + PULSE_SPEED * dt;
    var life := Life(pathLength, p.maxPath, num);
    var moved := p.(progress := progress, pathLength := pathLength, life := life);
    if progress < 1.0 then moved
    else
      var arrive := Arrival(p, edges);
      var next := Without(nodes[arrive].incident, p.edge);
      MoveOnIffNotDeadEnd(nodes, edges, arrive, p.edge);
      if |next| == 0 || life <= 0.05 then moved.(dead := true)
      else
        var ne := next[PickIndex(r, |next|)];
        assert ne in nodes[arrive].incident && ne != p.edge;
        moved.(edge := ne, progress := 0.0, reverse := edges[ne].to == arrive)
  }

  /** The filtered incident list is empty exactly at a dead end, and holds only edges of the node. */
  lemma MoveOnIffNotDeadEnd(nodes: seq<Node>, edges: seq<Edge>, v: nat, current: nat)
    requires IncidenceOk(nodes, edges) && v < |nodes|
    ensures |Without(nodes[v].incident, current)| == 0 <==> DeadEnd(edges, v, current)
    ensures forall j :: j in Without(nodes[v].incident, current) ==> j < |edges| && Touches(edges[j], v)
  {
    var next := Without(nodes[v].incident, current);
    if !DeadEnd(edges, v, current) {
      var j :| 0 <= j < |edges| && Touches(edges[j], v) && j != current;
      TouchingComplete(edges, v, j);
      assert j in next;
    }
    if |next| > 0 {
      assert next[0] in next;
    }
  }

  /** A live pulse that survives a frame with dt >= 0 is again a well-formed live pulse. */
  lemma AdvanceKeepsOk(p: Pulse, dt: real, r: real, nodes: seq<Node>, edges: seq<Edge>, num: Numerics)
    requires Sound(num) && Topology(nodes, edges)
    requires PulseOk(p, |edges|) && dt >= 0.0 && 0.0 <= r < 1.0
    ensures var q := Advance(p, dt, r, nodes, edges, num);
            !q.dead ==> PulseOk(q, |edges|)
  {
    assert (PULSE_SPEED / edges[p.edge].length) * dt >= 0.0;
  }

  /** A pulse whose path budget is used up dies at the end of its edge. */
  lemma SpentPulseDies(p: Pulse, dt: real, r: real, nodes: seq<Node>, edges: seq<Edge>, num: Numerics)
    requires Sound(num) && Topology(nodes, edges)
    requires p.edge < |edges| && p.maxPath > 0.0 && !p.dead && 0.0 <= r < 1.0
    requires p.pathLength + PULSE_SPEED * dt >= p.maxPath
    requires Travelled(p, dt, edges) >= 1.0
    ensures Advance(p, dt, r, nodes, edges, num).dead
  {
  }

  /** Advance every pulse of a frame; pulse i uses draw 4 + i of the frame. */
  function AdvanceAll(ps: seq<Pulse>, dt: real, rng: Rng, nodes: seq<Node>, edges: seq<Edge>, num: Numerics): (qs: seq<Pulse>)
    requires Sound(num) && Topology(nodes, edges) && UnitDraws(rng)
    requires AllPulsesOk(ps, |edges|)
    ensures |qs| == |ps|
    ensures forall i :: 0 <= i < |ps| ==> qs[i] == Advance(ps[i], dt, rng(4 + i), nodes, edges, num)
  {
    if ps == [] then []
    else
      var n := |ps| - 1;
      AdvanceAll(ps[..n], dt, rng, nodes, edges, num) + [Advance(ps[n], dt, rng(4 + n), nodes, edges, num)]
  }

  /** pulses.filter(p => !p.dead) */
  function Alive(ps: seq<Pulse>): (r: seq<Pulse>)
    ensures forall p :: p in r <==> p in ps && !p.dead
    ensures |r| <= |ps|
  {
    if ps == [] then []
    else if ps[0].dead then Alive(ps[1..])
    else [ps[0]] + Alive(ps[1..])
  }

  /** The filter keeps every live pulse as often as it occurs and drops every dead one. */
  lemma {:induction false} AliveCounts(ps: seq<Pulse>)
    ensures forall p :: multiset(Alive(ps))[p] == if p.dead then 0 else multiset(ps)[p]
    decreases |ps|
  {
    if ps != [] {
      AliveCounts(ps[1..]);
      assert ps == [ps[0]] + ps[1..];
    }
  }

  /** The filter keeps the survivors in their original order: filtering distributes over concatenation. */
  lemma {:induction false} AliveKeepsOrder(a: seq<Pulse>, b: seq<Pulse>)
    ensures Alive(a + b) == Alive(a) + Alive(b)
    decreases |a|
  {
    if a == [] {
      assert a + b == b;
    } else {
      var ab := a + b;
      assert ab[0] == a[0] && ab[1..] == a[1..] + b;
      AliveKeepsOrder(a[1..], b);
      if !a[0].dead {
        calc {
          Alive(ab);
          [a[0]] + Alive(a[1..] + b);
          [a[0]] + (Alive(a[1..]) + Alive(b));
          { assert [a[0]] + (Alive(a[1..]) + Alive(b)) == ([a[0]] + Alive(a[1..])) + Alive(b); }
          Alive(a) + Alive(b);
        }
      }
    }
  }


  /**
   * After a frame's update and filter, every remaining pulse is a live,
   * well-formed pulse, and there are no more pulses than before.
   */
  lemma SurvivorsOk(ps: seq<Pulse>, dt: real, rng: Rng, nodes: seq<Node>, edges: seq<Edge>, num: Numerics)
    requires Sound(num) && Topology(nodes, edges) && UnitDraws(rng) && dt >= 0.0
    requires AllPulsesOk(ps, |edges|)
    ensures var r := Alive(AdvanceAll(ps, dt, rng, nodes, edges, num));
            |r| <= |ps| && forall k :: 0 <= k < |r| ==> PulseOk(r[k], |edges|)
  {
    var qs := AdvanceAll(ps, dt, rng, nodes, edges, num);
    forall i | 0 <= i < |qs| ensures !qs[i].dead ==> PulseOk(qs[i], |edges|) {
      AdvanceKeepsOk(ps[i], dt, rng(4 + i), nodes, edges, num);
    }
    var r := Alive(qs);
    forall k | 0 <= k < |r| ensures PulseOk(r[k], |edges|) {
      assert r[k] in r;
    }
  }
}
