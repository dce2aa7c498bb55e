/*
 * Shared vocabulary of the circuit-network background engine: its constants,
 * colours and points, and the two things the engine takes from its host that
 * the model does not compute itself — the floating-point numerics of
 * Math.hypot / Math.pow and the random source Math.random.
 */
module CircuitBase {

  // Constants of the engine (script.js:10-20, 177)
  const GRID: int := 80                 // spacing between potential node positions
  const JITTER: real := 24.0            // GRID * 0.3, full width of the position jitter
  const PULSE_SPEED: real := 100.0      // px per second
  const MAX_PULSES: nat := 24
  const SPAWN_INTERVAL: real := 300.0   // ms between spawns
  const GLOW_RADIUS: real := 40.0
  const LERP_SPEED: real := 0.12        // glow easing rate per frame

  /** An RGB colour; the engine uses exactly two. */
  datatype Rgb = Rgb(r: int, g: int, b: int)

  const PURPLE: Rgb := Rgb(124, 92, 252)
  const CYAN: Rgb := Rgb(34, 211, 238)

  datatype Point = Point(x: real, y: real)

  /** A cell of the layout grid: column and row (neighbour lookups may leave the grid). */
  datatype Cell = Cell(col: int, row: int)

  function Abs(x: real): real { if x < 0.0 then -x else x }

  function Min(a: real, b: real): real { if a <= b then a else b }

  function Max(a: real, b: real): real { if a >= b then a else b }

  /**
   * The floating-point library functions the engine calls: Math.hypot and
   * x => Math.pow(x, 1.5). They are left uninterpreted apart from the facts
   * collected in Sound.
   */
  datatype Numerics = Numerics(hypot: (real, real) -> real, pow15: real -> real)

  /** Facts true of the real hypot and of x^1.5 that the engine relies on. */
  ghost predicate Sound(num: Numerics)
  {
    && (forall a, b :: num.hypot(a, b) >= Abs(a) && num.hypot(a, b) >= Abs(b))
    && (forall x :: x >= 0.0 ==> num.pow15(x) >= 0.0)
    && (forall x :: x >= 1.0 ==> num.pow15(x) >= 1.0)
  }

  /** A source of Math.random() values: slot k holds the k-th draw. */
  type Rng = nat -> real

  ghost predicate UnitDraws(rng: Rng)
  {
    forall k :: 0.0 <= rng(k) < 1.0
  }

  /** Math.floor(r * n): a uniform pick of an index below n. */
  function PickIndex(r: real, n: nat): (i: nat)
    requires 0.0 <= r < 1.0
    requires n > 0
    ensures i < n
  {
    var scaled := r * n as real;
    assert scaled < n as real by {
      assert (1.0 - r) * n as real > 0.0;
    }
    scaled.Floor
  }
}
