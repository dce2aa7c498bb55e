# Circuit-network background engine, modelled in Dafny

This project models the circuit-network background of `script.js` (the
self-contained function at lines 4-354): the graph builder that lays
jittered nodes on a grid outside a central content band and wires each new
node to up to four earlier grid neighbours, the pulse state machine that
moves pulses along edges and fades them in and out, and the per-frame
step. That step clamps the time step, spawns on a fixed cadence, advances
the pulses, drops dead ones and eases every node's and edge's glow towards
the influence of nearby pulses.

Modules, one per part of the engine:

- `CircuitBase` (`circuit_base.dfy`): constants, colours, points. It also
  holds the two host facilities the engine depends on: `Math.hypot` and
  `x => Math.pow(x, 1.5)`, as function values with only the facts in
  `Sound`, and `Math.random`, as an oracle `Rng` of draws in [0,1).
- `CircuitGraph` (`circuit_graph.dfy`): `contentZone`, `inExclusionZone`
  and `buildNetwork`. The builder is imperative, as in the source:
  - `BuildNetwork` runs the row loop;
  - `WalkRow` runs the column loop of one row;
  - `VisitCell` is one pass of it: the band test, the placement draw and,
    for a kept cell, `PlaceNode`;
  - `PlaceNode` pushes the jittered node and records its cell;
  - `Connect` runs the neighbour loop;
  - `TryNeighbour` is one pass of that loop.

  Each method is proved equal to a reference definition on a `Builder`
  value (nodes, edges, cells, nodeMap and the index `next` of the next
  random draw): `TrySlot` for one neighbour attempt, `Slots` for the
  neighbour loop, `Placing` and `Visit` for one cell, `Walk` for the walk
  up to a cell and `Built` for the whole grid. The draws are therefore
  consumed in the order the source makes them.

  The properties are proved about the reference definitions. `GraphOk` is
  the well-formedness the builder establishes: ids, jitter, the band,
  backward neighbours only, cached lengths, no duplicate edges, and exact
  incident lists. `Placed` records where the walk put its nodes. The
  placement draw of a cell is the one at the walk's cursor on reaching it
  (`Cursor`). A band-free cell holds a node exactly when that draw is at
  most 0.6, and the node sits at the cell's corner moved by the next two
  draws.
- `CircuitPulse` (`circuit_pulse.dfy`): the pulse record, the life curve,
  `spawnPulse`'s new pulse, `pulsePosition`, `advancePulse` and the
  dead-pulse filter.
- `CircuitGlow` (`circuit_glow.dfy`): the glow lerp, the distance
  falloff, and `pulseInfluence` as a max-fold.
- `CircuitEngine` (`circuit_engine.dfy`): class `Circuit` holds the
  engine's mutable state (`nodes`, `edges`, `pulses`, `lastTime`,
  `lastSpawn`, the viewport size). Its methods are `resize`, `spawnPulse`,
  `animate` and the glow-update half of `draw`. `SpawnPulse`, `Animate`
  and `UpdateGlow` are proved against functions of the old state.
  The constructor and `Resize` are proved against `Built`, `GraphOk` and
  `Placed` of the network they build, which does not depend on the old
  network.

The band test in the builder looks only at the un-jittered x of a cell
(script.js:71). A node's jittered position can therefore lie up to 12px
inside the exclusion band. `CircuitGraph.NodeNearBand` proves that bound.

## Model

| member | source | states |
|---|---|---|
| CircuitBase.PickIndex | script.js:121 | `Math.floor(r * n)` for a draw r in [0,1) is a valid index below n |
| CircuitGraph.ContentZone | script.js:29-34 | the content column is centred on W/2, is min(1280, 0.55·W) wide and lies within [0, W] |
| CircuitGraph.InExclusionZone | script.js:36-41 | x is in the band exactly when it is closer to the centre than half the content width plus the 60px margin |
| CircuitGraph.GridCount | script.js:61-62 | `ceil(n / GRID) + 1` columns (rows) cover the extent n with at most one spare column |
| CircuitGraph.Neighbours | script.js:86-91 | the four candidate neighbours (left, up, up-left, up-right) all precede the cell in the row-major walk |
| CircuitGraph.NbSlot | script.js:86-94 | the slot of a neighbour cell in the lookup order is unique, and 4 when the cell is not a candidate neighbour |
| CircuitGraph.Touching | script.js:109-111 | a node's incident list holds only edges that touch it, by index |
| CircuitGraph.TouchingSorted | script.js:109-111 | incident lists are in push order, strictly increasing, so no edge is recorded twice at a node |
| CircuitGraph.TouchingComplete | script.js:109-111 | every edge touching a node appears in its incident list |
| CircuitGraph.TouchingAppend | script.js:109-111 | pushing an edge extends exactly its two endpoints' incident lists by its index |
| CircuitGraph.BuildNetwork | script.js:56-115 | the nodes and edges are exactly those of the reference walk `Built`; the graph is well formed (`GraphOk`), every glow starts dark, and `Placed` holds over the whole grid with the walk's own cursor: a band-free cell holds a node exactly when its placement draw is at most 0.6, and each node sits at its cell's corner plus (draw - 0.5)·24 px in x and y |
| CircuitGraph.WalkRow | script.js:67-113 | the column loop takes the walk's state at the start of a row to its state at the start of the next row, and never goes back in the draw sequence |
| CircuitGraph.VisitCell | script.js:68-112 | one cell of the walk yields exactly `Visit` of the state before it; earlier edges stay a prefix and the cursor never goes back |
| CircuitGraph.TrySlot | script.js:93-111 | (reference for one neighbour attempt) it keeps the node count, the cells and nodeMap; what it adds is stated by `TryNeighbour` through `TrySlotMatches` |
| CircuitGraph.Slots | script.js:86-111 | (reference for the neighbour loop) it keeps the node count, the cells and nodeMap; its draws and edges are stated by `SlotsEffect` |
| CircuitGraph.Placing | script.js:74-83 | placing a node appends exactly one node, maps the cell to its index, records the cell and takes three draws |
| CircuitGraph.Visit | script.js:68-112 | (reference for one cell of the walk) a band cell is left alone, a placement draw above 0.6 only advances the cursor, and otherwise `Placing` then `Slots`; `VisitDraws` states its draws, `VisitKeeps` that it keeps the builder invariant, `VisitPlaced` that it extends `Placed` |
| CircuitGraph.Walk | script.js:66-114 | (reference for the row/column loop nest) the state on reaching a cell is `Visit` of the state at the cell before it in row-major order; `WalkOk` proves it well formed, dark and placed as `Placed` says at every cell |
| CircuitGraph.Built | script.js:56-115 | (reference for buildNetwork) the walk over every row; `WalkOk` proves it well formed, dark and placed as `Placed` says, and `BuildNetwork`, the constructor and `Resize` are proved equal to it |
| CircuitGraph.Present | script.js:93-95 | the number of backward slots from i on that hold a node is at most 4 - i |
| CircuitGraph.SlotsEffect | script.js:86-111 | the neighbour loop takes exactly one draw per slot that holds a node, moves no node, keeps earlier edges as a prefix and adds at most one edge per slot |
| CircuitGraph.PresentIgnoresCell | script.js:83-95 | recording the newest cell in nodeMap does not change which of its backward neighbours hold nodes |
| CircuitGraph.VisitDraws | script.js:68-111 | a band cell takes no draw, an empty cell one, and a kept cell three plus one per backward neighbour holding a node |
| CircuitGraph.PlacingDraws | script.js:74-111 | a kept cell takes three draws plus one per backward neighbour holding a node |
| CircuitGraph.VisitNode | script.js:74-112 | a kept cell gets the node at its corner jittered by the second and third draws, then the neighbour loop from the fourth draw |
| CircuitGraph.TrySlotMatches | script.js:93-111 | the outcome `TryNeighbour` promises is exactly the reference attempt `TrySlot` |
| CircuitGraph.SlotsKeeps | script.js:86-111 | the neighbour loop keeps the builder invariant |
| CircuitGraph.VisitKeeps | script.js:68-112 | visiting a grid cell keeps the builder invariant, and every node lies on a cell visited so far |
| CircuitGraph.WalkOk | script.js:66-115 | at every cell of the grid, and after the last row, the walk has built a well-formed dark network on earlier cells, placed as `Placed` says |
| CircuitGraph.WalkMapBelow | script.js:83-94 | during the walk every cell in nodeMap maps to an existing node |
| CircuitGraph.VisitPlaced | script.js:68-83 | visiting a grid cell extends `Placed` past it |
| CircuitGraph.PlacedSkip | script.js:71 | a band cell adds no node |
| CircuitGraph.PlacedEmpty | script.js:74 | a band-free cell whose placement draw is above 0.6 gets no node |
| CircuitGraph.PlacedNode | script.js:74-83 | a band-free cell whose placement draw is at most 0.6 gets a node at its corner moved by the next two draws |
| CircuitGraph.PlacedNextRow | script.js:66-67 | the walk moves from past the last column of a row to the first column of the next |
| CircuitGraph.PlaceNode | script.js:76-112 | the new node is pushed at index `nodes.length` at the jittered position of its cell, earlier nodes keep their positions and ids, and its cell maps to it; earlier edges stay a prefix and at most four edges are added; exactly one draw is taken per backward neighbour holding a node; the result is exactly the reference loop `Slots` from the state with the node |
| CircuitGraph.Connect | script.js:85-112 | the neighbour loop yields exactly `Slots`: for each backward slot in order, `TrySlot` draws when the slot holds a node and adds `NewEdge` exactly when `Joins` holds; every node's position and id is kept, earlier edges stay a prefix, and exactly one draw is taken per slot holding a node |
| CircuitGraph.Joins | script.js:93-102 | (predicate) slot i gets an edge exactly when it holds an earlier node, the draw is at most 0.5 and the midpoint avoids the band |
| CircuitGraph.TryNeighbour | script.js:93-111 | one attempt draws exactly when the slot holds a node; when `Joins` holds it appends `NewEdge` and records it at both endpoints, and otherwise changes nothing |
| CircuitGraph.TryNeighbourKeeps | script.js:93-111 | either outcome of an attempt keeps the builder invariant and extends the per-node segment invariant to the next slot |
| CircuitGraph.RecordEdgePlaces | script.js:109-111 | recording an edge moves no node and changes no id |
| CircuitGraph.NewEdge | script.js:104-108 | the pushed edge runs from the earlier neighbour `f` to the newest node, so from < to, starts dark, and its cached length is at least the offset in x and in y |
| CircuitGraph.RecordEdge | script.js:109-111 | recording an edge keeps the node count |
| CircuitGraph.RecordEdgeEffect | script.js:110-111 | recording changes only the incident lists of the two endpoints, each by appending the new edge index |
| CircuitGraph.AppendNodeKeeps | script.js:80-83 | appending a node with id = its index, no edges and a dark glow keeps the builder invariant and opens an empty edge segment |
| CircuitGraph.AppendEdgeKeeps | script.js:104-111 | appending a fresh, valid edge to the edge list and to both endpoints keeps the builder invariant |
| CircuitGraph.BuildingNeighbour | script.js:93-95 | a neighbour found in nodeMap is an earlier node sitting on the tried slot |
| CircuitGraph.NeighbourIsEarlier | script.js:93-95 | a neighbour found in nodeMap has a smaller index than the newest node |
| CircuitGraph.NeighbourSlot | script.js:93-95 | the node found for slot i sits on the cell that is neighbour i of the newest cell |
| CircuitGraph.BuildingAdd | script.js:100-111 | adding the edge from a backward neighbour whose midpoint avoids the band keeps the graph well formed |
| CircuitGraph.NewEdgeOk | script.js:100-108 | the new edge joins a backward neighbour to the newest node, avoids the band and caches hypot of the offset |
| CircuitGraph.NewEdgeFresh | script.js:86-111 | the edge from slot i duplicates no existing edge, because each slot is tried once |
| CircuitGraph.SegmentSkip | script.js:93-98 | a slot that adds no edge keeps the segment invariant |
| CircuitGraph.SegmentAdd | script.js:93-111 | an edge added from slot i extends the segment invariant to slot i + 1 |
| CircuitGraph.EdgeLengthBound | script.js:76-107 | every edge is longer than GRID - jitter = 56px, so its length is positive |
| CircuitGraph.GraphTopology | script.js:104-111 | a well-formed graph has endpoints from < to, positive lengths and exact incident lists |
| CircuitGraph.NoParallelEdges | script.js:86-111 | no two edges join the same pair of nodes, in either orientation |
| CircuitGraph.NodeNearBand | script.js:71-78 | a node reaches at most half the jitter (12px) into the band |
| CircuitGraph.GraphOkSameLayout | script.js:204-249 | changing glows only keeps the graph well formed |
| CircuitPulse.Life | script.js:141-145 | life is in [0,1]; it is 0 once the path budget is spent and equals the fade-in min(1, d/60) before 70% of it |
| CircuitPulse.FreshPulse | script.js:120-133 | a new pulse is on a valid edge with progress 0, path 0, life 1, a budget in [800, 2000) and one of the two colours |
| CircuitPulse.Origin | script.js:169 | the node a pulse set out from is an endpoint of its edge, the `to` end exactly when it runs in reverse |
| CircuitPulse.Arrival | script.js:149-170 | origin and arrival are the edge's two endpoints, one each |
| CircuitPulse.PulsePosition | script.js:166-175 | the position is the origin node at progress 0, the arrival node at 1, and between them in both coordinates |
| CircuitPulse.LerpBetween | script.js:172-173 | interpolation with t in [0,1] stays between its end points |
| CircuitPulse.Without | script.js:150 | the filtered list holds exactly the other edges of the node |
| CircuitPulse.Advance | script.js:136-164 | path grows by 100·dt and progress by (100/length)·dt; the pulse dies at an edge end exactly at a dead end or when faded (otherwise unchanged); else it moves to a different edge of the arrival node, starting at that node |
| CircuitPulse.Travelled | script.js:137-138 | (the progress update) a zero step leaves progress unchanged; `TravelledCovers` states the distance covered and monotonicity |
| CircuitPulse.TravelledCovers | script.js:137-138 | the progress gained, times the edge's length, is the 100·dt pixels covered; progress never falls for dt ≥ 0 |
| CircuitPulse.MoveOnIffNotDeadEnd | script.js:149-155 | the arrival node has no other edge exactly when the filtered list is empty |
| CircuitPulse.AdvanceKeepsOk | script.js:136-164 | a pulse that survives a frame with dt ≥ 0 is again a well-formed live pulse |
| CircuitPulse.SpentPulseDies | script.js:142-155 | a pulse whose budget is used up dies when it reaches the end of its edge |
| CircuitPulse.AdvanceAll | script.js:334-336 | every pulse of the frame is advanced, in place and in order |
| CircuitPulse.Alive | script.js:337 | the filter keeps exactly the live pulses and never grows the list |
| CircuitPulse.AliveCounts | script.js:337 | each live pulse is kept as often as it occurs; each dead one is dropped |
| CircuitPulse.AliveKeepsOrder | script.js:337 | the filter keeps the survivors in order (it distributes over concatenation) |
| CircuitPulse.SurvivorsOk | script.js:333-337 | after update and filter every remaining pulse is live and well formed and there are no more of them |
| CircuitGlow.EaseStrength | script.js:214 | one lerp step shrinks the distance to the target by the factor 0.88 |
| CircuitGlow.Ease | script.js:209-215 | the eased glow lies between old and target, stays in [0,1], never moves away from the target, and takes the target's colour only above 0.05 |
| CircuitGlow.EaseConverges | script.js:214 | under a steady target the distance after n frames is 0.88^n times the first |
| CircuitGlow.Falloff | script.js:186 | the distance falloff is in [0,1] and is 0 exactly at or beyond 120px |
| CircuitGlow.Lit | script.js:184-186 | a pulse's contribution is in [0, life] and 0 at or beyond 120px |
| CircuitGlow.Contribution | script.js:183-186 | the same for a pulse at its `pulsePosition` |
| CircuitGlow.Strongest | script.js:181-191 | the fold returns 0 and purple or one of the pairs, and its strength is never negative |
| CircuitGlow.StrongestIsMax | script.js:181-191 | the max-fold finds the greatest strength, never below 0, from the first pair that attains it, and stays purple at 0 |
| CircuitGlow.Influence | script.js:180-193 | with no pulses the influence is 0 and purple; it is never negative |
| CircuitGlow.InfluenceIsStrongest | script.js:180-193 | `pulseInfluence` is 0 and purple with no pulses, at least every pulse's contribution, and attained by a pulse whose colour it returns |
| CircuitGlow.InfluenceBounded | script.js:180-193 | with lives in [0,1] the influence is in [0,1] |
| CircuitGlow.EdgeTarget | script.js:205-207 | an edge's target, the influence at its midpoint, is dark with no pulses and never negative |
| CircuitGlow.EdgeTargetBounded | script.js:205-207 | an edge's target, the influence at its midpoint, is in [0,1] |
| CircuitGlow.NodeTargetBounded | script.js:243 | a node's target is in [0,1] |
| CircuitGlow.NodeTarget | script.js:243 | a node's target, the influence at its centre, is dark with no pulses and never negative |
| CircuitEngine.FrameDelta | script.js:324 | dt is at most 0.1 s and never more than the elapsed time in seconds; it is non-negative for a later timestamp; and it is either 0.1 s or exactly the elapsed time |
| CircuitEngine.SpawnDue | script.js:328 | a spawn is due only strictly after the last one: the 300 ms interval is positive |
| CircuitEngine.Spawned | script.js:117-133 | at the cap or with no edges the list is unchanged; otherwise exactly one fresh pulse is appended; the cap of 24 is never exceeded |
| CircuitEngine.Pending | script.js:328-331 | a frame's spawn keeps the pulse invariant and changes nothing when not due |
| CircuitEngine.FreshNetwork | script.js:56-59 | a rebuilt network with no pulses satisfies the engine invariant |
| CircuitEngine.Circuit.constructor | script.js:343-346 | start-up on a desktop-width viewport builds exactly the network `Built`: valid, dark and placed as `Placed` describes, with no pulses and clocks at 0 |
| CircuitEngine.Circuit.Resize | script.js:43-54 | resize takes the new size, rebuilds exactly the network `Built` for it (valid, dark and placed as `Placed` describes), drops all pulses and keeps the clocks |
| CircuitEngine.Circuit.SpawnPulse | script.js:117-133 | the pulse list becomes `Spawned` of the old list; the invariant holds |
| CircuitEngine.Circuit.Animate | script.js:323-341 | the new clocks; pulses become the live survivors of advancing the (possibly spawned) old pulses by the clamped dt; every glow eases toward its target |
| CircuitEngine.Circuit.StepPulses | script.js:324-337 | the pulse half of animate: clocks, spawn cadence, advance, filter |
| CircuitEngine.Circuit.UpdateGlow | script.js:204-249 | the glow half of draw: edges then nodes ease toward their targets, and the invariant holds |
| CircuitEngine.UpdatePulses | script.js:333-337 | the update loop and filter give the live survivors of `AdvanceAll`, which satisfy the pulse invariant |
| CircuitEngine.AdvancePulses | script.js:334-336 | the update loop computes `AdvanceAll` |
| CircuitEngine.EaseEdges | script.js:204-215 | each edge's glow is eased toward the influence at its midpoint, and nothing else changes |
| CircuitEngine.EaseNodes | script.js:242-249 | each node's glow is eased toward the influence at its centre, and nothing else changes |
| CircuitEngine.GlowKeepsInvariant | script.js:204-249 | a glow step keeps the graph well formed and every glow in [0,1] |
| CircuitEngine.GlowStepBounded | script.js:207-248 | with lives in [0,1], glows that start in [0,1] stay in [0,1] |

## Left out

- Canvas drawing in `draw` is not modelled: clearing, gradients, arcs, stroke styles and alphas. Also left out are the render-only colour choice at glow > 0.02 (script.js:218, 252) and the skip of tiny edges (script.js:224), which only affects drawing.
- The scroll offset (script.js:199-201) is a drawing transform and is left out.
- Host I/O is left out:
  - `devicePixelRatio`, `innerWidth`, `scrollHeight` and canvas sizing;
  - `requestAnimationFrame` scheduling;
  - the debounced resize listener (script.js:348-352).

  The viewport width and page height are parameters of the constructor and of `Resize`.
- Floating point is left out. Coordinates and times are reals. `Math.hypot` and `Math.pow(x, 1.5)` are uninterpreted functions, and the model relies only on the facts stated in `CircuitBase.Sound`. Rounding and the exact shape of the fade-out curve are not modelled.
- `Math.random` is an oracle of draws in [0,1). Probabilities (60% placement, 50% edges, 60/40 colour) are not modelled.
  - Within one frame, the spawn uses draws 0-3 and pulse i uses draw 4 + i when it changes edge. The source draws only when needed. Both allow the same set of behaviours, but not the same draw sequence.
- Pulses, nodes and edges are values held in sequences, not shared objects. An edge is referred to by its index, and `e !== pulse.edge` becomes index inequality. No aliasing is modelled; the source never aliases a pulse.
- `nodeMap` is a map from grid cells to node indices, not a string-keyed object. Each node's grid cell is kept in a ghost sequence.
- The source leaves a glow undefined until the first draw sets it to 0 and purple. The model starts every glow at 0 and purple, which gives the same first lerp.
- CircuitPulse.DeadEnd: a predicate with no contract of its own; `MoveOnIffNotDeadEnd` ties it to the filtered list of script.js:150-152.
- CircuitEngine.Circuit.Animate: requires a timestamp no earlier than `lastTime`. Animation-frame timestamps are monotonic, so dt is never negative. The source does not check this itself.
- CircuitEngine.Circuit.StepPulses: requires the same monotonic timestamp as `Animate`.
- CircuitEngine.Circuit.constructor: requires a width of at least 1024. That is the source's start-up guard (script.js:344); below it nothing runs.
- Everything after script.js:354 is not part of this model: scroll reveal, smooth scrolling, the menu and the stat animations.
