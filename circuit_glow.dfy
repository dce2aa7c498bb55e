/*
 * Glow smoothing: every frame each node and edge measures how strongly the
 * nearest bright pulse lights it (pulseInfluence) and eases its stored glow
 * 12% of the way towards that target.
 */
module CircuitGlow {
  import opened CircuitBase
  import opened CircuitGraph
  import opened CircuitPulse

  /** One frame of easing of a strength: LERP_SPEED of the way to the target. */
  function EaseStrength(s: real, target: real): (r: real)
    ensures Abs(r - target) == (1.0 - LERP_SPEED) * Abs(s - target)
  {
    s + (target - s) * LERP_SPEED
  }

  /**
   * The glow update of draw: strength eases towards the target; the stored
   * colour follows the target's only when the target is above 0.05.
   */
  function Ease(g: Glow, target: Glow): (h: Glow)
    ensures Between(h.strength, g.strength, target.strength)
    ensures 0.0 <= g.strength <= 1.0 && 0.0 <= target.strength <= 1.0 ==> 0.0 <= h.strength <= 1.0
    ensures Abs(h.strength - target.strength) <= Abs(g.strength - target.strength)
    ensures target.strength > 0.05 ==> h.color == target.color
    ensures target.strength <= 0.05 ==> h.color == g.color
  {
    LerpBetween(g.strength, target.strength, LERP_SPEED);
    Glow(EaseStrength(g.strength, target.strength), if target.strength > 0.05 then target.color else g.color)
  }

  /** d scaled n times by 1 - LERP_SPEED, that is (0.88^n) * d. */
  function Shrunk(d: real, n: nat): (r: real)
    ensures d >= 0.0 ==> 0.0 <= r <= d
  {
    if n == 0 then d else (1.0 - LERP_SPEED) * Shrunk(d, n - 1)
  }

  /** n frames of easing towards a fixed target strength. */
  function EaseFrames(s: real, target: real, n: nat): real
  {
    if n == 0 then s else EaseStrength(EaseFrames(s, target, n - 1), target)
  }

  /** Under a steady target the distance to it shrinks geometrically, by 0.88 per frame. */
  lemma {:induction false} EaseConverges(s: real, target: real, n: nat)
    ensures Abs(EaseFrames(s, target, n) - target) == Shrunk(Abs(s - target), n)
  {
    if n > 0 {
      EaseConverges(s, target, n - 1);
    }
  }

  /** The distance falloff of pulseInfluence: max(0, 1 - d / 120). */
  function Falloff(dist: real): (f: real)
    requires dist >= 0.0
    ensures 0.0 <= f <= 1.0
    ensures dist >= GLOW_RADIUS * 3.0 <==> f == 0.0
  {
    Max(0.0, 1.0 - dist / (GLOW_RADIUS * 3.0))
  }

  /** How strongly a pulse of the given life at pos lights the point (x, y). */
  function Lit(pos: Point, life: real, x: real, y: real, num: Numerics): (c: real)
    requires Sound(num)
    ensures 0.0 <= life ==> 0.0 <= c <= life
    ensures num.hypot(pos.x - x, pos.y - y) >= GLOW_RADIUS * 3.0 ==> c == 0.0
  {
    var dist := num.hypot(pos.x - x, pos.y - y);
    assert dist >= Abs(pos.x - x) >= 0.0;
    var falloff := Falloff(dist);
    if 0.0 <= life then
      ScaleBetween(life, falloff);
      falloff * life
    else
      falloff * life
  }

  /** How strongly pulse p lights the point (x, y): max(0, 1 - d / 120) * life. */
  function Contribution(p: Pulse, x: real, y: real, nodes: seq<Node>, edges: seq<Edge>, num: Numerics): (c: real)
    requires Sound(num) && p.edge < |edges| && Endpoints(nodes, edges)
    ensures 0.0 <= p.life ==> 0.0 <= c <= p.life
    ensures var pos := PulsePosition(p, nodes, edges);
            num.hypot(pos.x - x, pos.y - y) >= GLOW_RADIUS * 3.0 ==> c == 0.0
  {
    Lit(PulsePosition(p, nodes, edges), p.life, x, y, num)
  }

  /** The pulses a frame can draw from: each sits on an edge of the graph. */
  predicate OnGraph(ps: seq<Pulse>, edges: seq<Edge>)
  {
    forall i :: 0 <= i < |ps| ==> ps[i].edge < |edges|
  }

  /**
   * The max-fold of pulseInfluence over per-pulse (strength, colour)
   * pairs: best starts at 0 and purple and is replaced only by a strictly
   * stronger pair.
   */
  function Strongest(cs: seq<Glow>): (best: Glow)
    ensures best == DARK || best in cs
    ensures best.strength >= 0.0
    decreases |cs|
  {
    if cs == [] then DARK
    else
      var best := Strongest(cs[..|cs| - 1]);
      if cs[|cs| - 1].strength > best.strength then cs[|cs| - 1] else best
  }

  /**
   * The fold finds the greatest strength, never below zero, and the first
   * pair that attains it; with no positive strength it stays dark.
   */
  lemma {:induction false} StrongestIsMax(cs: seq<Glow>)
    ensures cs == [] ==> Strongest(cs) == DARK
    ensures Strongest(cs).strength >= 0.0
    ensures forall i :: 0 <= i < |cs| ==> cs[i].strength <= Strongest(cs).strength
    ensures Strongest(cs).strength == 0.0 ==> Strongest(cs).color == PURPLE
    ensures Strongest(cs).strength > 0.0 ==>
              exists i :: 0 <= i < |cs| && cs[i] == Strongest(cs) && forall j :: 0 <= j < i ==> cs[j].strength < Strongest(cs).strength
    decreases |cs|
  {
    if cs != [] {
      var n := |cs| - 1;
      StrongestIsMax(cs[..n]);
      var best := Strongest(cs[..n]);
      assert forall i :: 0 <= i < n ==> cs[..n][i] == cs[i];
      if cs[n].strength <= best.strength && best.strength > 0.0 {
        var i :| 0 <= i < n && cs[..n][i] == best && forall j :: 0 <= j < i ==> cs[..n][j].strength < best.strength;
        assert cs[i] == Strongest(cs);
      }
    }
  }

  /** Each pulse's contribution at (x, y), paired with its colour, in pulse order. */
  function Lights(ps: seq<Pulse>, x: real, y: real, nodes: seq<Node>, edges: seq<Edge>, num: Numerics): seq<Glow>
    requires Sound(num) && Endpoints(nodes, edges) && OnGraph(ps, edges)
  {
    seq(|ps|, i requires 0 <= i < |ps| => Glow(Contribution(ps[i], x, y, nodes, edges, num), ps[i].color))
  }

  /** pulseInfluence: the max-fold over the pulses' (contribution, colour) pairs at (x, y). */
  function Influence(ps: seq<Pulse>, x: real, y: real, nodes: seq<Node>, edges: seq<Edge>, num: Numerics): (g: Glow)
    requires Sound(num) && Endpoints(nodes, edges) && OnGraph(ps, edges)
    ensures ps == [] ==> g == DARK
    ensures g.strength >= 0.0
  {
    Strongest(Lights(ps, x, y, nodes, edges, num))
  }

  /**
   * What pulseInfluence computes: the strongest contribution of any pulse
   * at (x, y) and the colour of a pulse that attains it; zero and purple
   * when no pulse contributes.
   */
  lemma InfluenceIsStrongest(ps: seq<Pulse>, x: real, y: real, nodes: seq<Node>, edges: seq<Edge>, num: Numerics)
    requires Sound(num) && Endpoints(nodes, edges) && OnGraph(ps, edges)
    ensures var g := Influence(ps, x, y, nodes, edges, num);
            && (ps == [] ==> g == DARK)
            && g.strength >= 0.0
            && (forall i :: 0 <= i < |ps| ==> Contribution(ps[i], x, y, nodes, edges, num) <= g.strength)
            && (g.strength == 0.0 ==> g.color == PURPLE)
            && (g.strength > 0.0 ==>
                  exists i :: 0 <= i < |ps| && Contribution(ps[i], x, y, nodes, edges, num) == g.strength && g.color == ps[i].color)
  {
    var cs := Lights(ps, x, y, nodes, edges, num);
    StrongestIsMax(cs);
    assert forall i :: 0 <= i < |ps| ==> Contribution(ps[i], x, y, nodes, edges, num) == cs[i].strength;
  }

  /** With every pulse's life in [0,1] the target glow is in [0,1]. */
  lemma InfluenceBounded(ps: seq<Pulse>, x: real, y: real, nodes: seq<Node>, edges: seq<Edge>, num: Numerics)
    requires Sound(num) && Endpoints(nodes, edges) && OnGraph(ps, edges)
    requires forall i :: 0 <= i < |ps| ==> 0.0 <= ps[i].life <= 1.0
    ensures 0.0 <= Influence(ps, x, y, nodes, edges, num).strength <= 1.0
  {
    InfluenceIsStrongest(ps, x, y, nodes, edges, num);
    var g := Influence(ps, x, y, nodes, edges, num);
    if g.strength > 0.0 {
      var i :| 0 <= i < |ps| && Contribution(ps[i], x, y, nodes, edges, num) == g.strength;
    }
  }

  /** The target glow of an edge: the influence at its midpoint. */
  function EdgeTarget(e: Edge, ps: seq<Pulse>, nodes: seq<Node>, edges: seq<Edge>, num: Numerics): (g: Glow)
    requires Sound(num) && Endpoints(nodes, edges) && OnGraph(ps, edges)
    requires e.from < |nodes| && e.to < |nodes|
    ensures ps == [] ==> g == DARK
    ensures g.strength >= 0.0
  {
    Influence(ps, (nodes[e.from].x + nodes[e.to].x) / 2.0, (nodes[e.from].y + nodes[e.to].y) / 2.0, nodes, edges, num)
  }

  /** The target glow of a node: the influence at its centre. */
  function NodeTarget(n: Node, ps: seq<Pulse>, nodes: seq<Node>, edges: seq<Edge>, num: Numerics): (g: Glow)
    requires Sound(num) && Endpoints(nodes, edges) && OnGraph(ps, edges)
    ensures ps == [] ==> g == DARK
    ensures g.strength >= 0.0
  {
    Influence(ps, n.x, n.y, nodes, edges, num)
  }

  /** With every pulse's life in [0,1] an edge's target glow is in [0,1]. */
  lemma EdgeTargetBounded(e: Edge, ps: seq<Pulse>, nodes: seq<Node>, edges: seq<Edge>, num: Numerics)
    requires Sound(num) && Endpoints(nodes, edges) && OnGraph(ps, edges)
    requires e.from < |nodes| && e.to < |nodes|
    requires forall i :: 0 <= i < |ps| ==> 0.0 <= ps[i].life <= 1.0
    ensures 0.0 <= EdgeTarget(e, ps, nodes, edges, num).strength <= 1.0
  {
    InfluenceBounded(ps, (nodes[e.from].x + nodes[e.to].x) / 2.0, (nodes[e.from].y + nodes[e.to].y) / 2.0, nodes, edges, num);
  }

  /** With every pulse's life in [0,1] a node's target glow is in [0,1]. */
  lemma NodeTargetBounded(n: Node, ps: seq<Pulse>, nodes: seq<Node>, edges: seq<Edge>, num: Numerics)
    requires Sound(num) && Endpoints(nodes, edges) && OnGraph(ps, edges)
    requires forall i :: 0 <= i < |ps| ==> 0.0 <= ps[i].life <= 1.0
    ensures 0.0 <= NodeTarget(n, ps, nodes, edges, num).strength <= 1.0
  {
    InfluenceBounded(ps, n.x, n.y, nodes, edges, num);
  }
}
