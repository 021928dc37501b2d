/**
 The flood propagation rule. It decides from the past generation and writes
 into the current one. A cell that was sea or flooded, at a non-negative
 elevation, splits the year's sea-level rise equally among itself and its
 strictly lower Moore neighbours. Each of those neighbours that was not
 already sea or flooded takes its flooded land-use class.
 */
module Flood {
  import opened Codes
  import opened Grid
  import opened Quantities

  /** The rule fires at p: sea or flooded in the past generation, at a non-negative past elevation. */
  predicate Triggers(past: Generation, p: Coord)
    requires past.Valid() && past.Holds(p)
  {
    IsSeaOrFlooded(LandUseAt(past, p)) && ElevationAt(past, p) >= 0.0
  }

  /** q's past elevation is strictly below p's. */
  predicate Below(past: Generation, p: Coord, q: Coord)
    requires past.Valid() && past.Holds(p) && past.Holds(q)
  {
    ElevationAt(past, q) < ElevationAt(past, p)
  }

  /** q is a Moore neighbour of p that lies strictly below it in the past generation. */
  predicate Lower(past: Generation, p: Coord, q: Coord)
    requires past.Valid() && past.Holds(p)
  {
    past.Holds(q) && Adjacent(p, q) && q != p && Below(past, p, q)
  }

  /** p's rule fires and rewrites q's land use: q is lower and was neither sea nor flooded. */
  predicate Floods(past: Generation, p: Coord, q: Coord)
    requires past.Valid() && past.Holds(p)
  {
    Triggers(past, p) && Lower(past, p, q) && !IsSeaOrFlooded(LandUseAt(past, q))
  }

  /** How many cells of ns lie inside the grid and below p in the past generation. */
  function CountBelow(past: Generation, p: Coord, ns: seq<Coord>): nat
    requires past.Valid() && past.Holds(p)
  {
    if ns == [] then 0
    else (if past.Holds(ns[0]) && Below(past, p, ns[0]) then 1 else 0) + CountBelow(past, p, ns[1..])
  }

  /** The rise each receiving cell gets when p's rule fires: rate / (1 + number of lower neighbours). */
  function Flow(past: Generation, rate: real, p: Coord): real
    requires past.Valid() && past.Holds(p)
  {
    Share(rate, CountBelow(past, p, Neighbors(past.rows, past.cols, p, false)))
  }

  /** One lower neighbour n receives flow and, unless it was already sea or flooded, floods. */
  function Drain(past: Generation, g: Generation, n: Coord, flow: real): (g': Generation)
    requires past.SameShape(g) && past.Holds(n)
    ensures g'.SameShape(g) && g'.soil == g.soil
    ensures forall q :: g.Holds(q) ==>
              ElevationAt(g', q) == ElevationAt(g, q) + (if q == n then flow else 0.0)
    ensures forall q :: g.Holds(q) ==>
              LandUseAt(g', q) == if q == n && !IsSeaOrFlooded(LandUseAt(past, n))
                                   then ApplyFlooding(LandUseAt(past, n)) else LandUseAt(g, q)
    ensures Total(g'.elevation) == Total(g.elevation) + flow
  {
    var v := ElevationAt(g, n) + flow;
    var g1 := SetElevation(g, n, v);
    TotalWrite(g.elevation, n, v);
    if IsSeaOrFlooded(LandUseAt(past, n)) then g1
    else SetLandUse(g1, n, ApplyFlooding(LandUseAt(past, n)))
  }

  /** Visits ns in order and drains every cell of the grid lying below p. */
  function Spread(past: Generation, g: Generation, p: Coord, flow: real, ns: seq<Coord>): (g': Generation)
    requires past.SameShape(g) && past.Holds(p)
    ensures g'.SameShape(g) && g'.soil == g.soil
    decreases |ns|
  {
    if ns == [] then g
    else
      var g1 := if past.Holds(ns[0]) && Below(past, p, ns[0]) then Drain(past, g, ns[0], flow) else g;
      Spread(past, g1, p, flow, ns[1..])
  }

  /**
   With no cell listed twice, each listed cell below p gains flow exactly
   once and floods unless it was already sea or flooded; every other cell
   keeps its elevation and land use.
   */
  lemma {:induction false} SpreadEffect(past: Generation, g: Generation, p: Coord, flow: real, ns: seq<Coord>)
    requires past.SameShape(g) && past.Holds(p)
    requires forall a, b :: 0 <= a < b < |ns| ==> ns[a] != ns[b]
    ensures forall q :: g.Holds(q) ==>
              ElevationAt(Spread(past, g, p, flow, ns), q)
              == ElevationAt(g, q) + (if q in ns && Below(past, p, q) then flow else 0.0)
    ensures forall q :: g.Holds(q) ==>
              LandUseAt(Spread(past, g, p, flow, ns), q)
              == if q in ns && Below(past, p, q) && !IsSeaOrFlooded(LandUseAt(past, q))
                 then ApplyFlooding(LandUseAt(past, q)) else LandUseAt(g, q)
    decreases |ns|
  {
    if ns != [] {
      var n := ns[0];
      var g1 := if past.Holds(n) && Below(past, p, n) then Drain(past, g, n, flow) else g;
      SpreadEffect(past, g1, p, flow, ns[1..]);
      assert forall q :: q in ns <==> q == n || q in ns[1..];
      assert n !in ns[1..];
    }
  }

  /** Spreading adds flow to the elevation total once per listed cell below p. */
  lemma {:induction false} SpreadTotal(past: Generation, g: Generation, p: Coord, flow: real, ns: seq<Coord>)
    requires past.SameShape(g) && past.Holds(p)
    ensures Total(Spread(past, g, p, flow, ns).elevation) == Total(g.elevation) + Times(flow, CountBelow(past, p, ns))
    decreases |ns|
  {
    if ns == [] {

    } else {
      var n := ns[0];
      var g1 := if past.Holds(n) && Below(past, p, n) then Drain(past, g, n, flow) else g;
      SpreadTotal(past, g1, p, flow, ns[1..]);
      TimesAdd(flow, 1, CountBelow(past, p, ns[1..]));

    }
  }

  /** p gains flow on its current elevation, then the cells of ns below p are drained in order. */
  function Fire(past: Generation, cur: Generation, p: Coord, flow: real, ns: seq<Coord>): (next: Generation)
    requires past.SameShape(cur) && past.Holds(p)
    ensures next.SameShape(cur) && next.soil == cur.soil
  {
    Spread(past, SetElevation(cur, p, ElevationAt(cur, p) + flow), p, flow, ns)
  }

  /** With p not listed and no cell listed twice, p and the listed cells below it gain flow once. */
  lemma FireEffect(past: Generation, cur: Generation, p: Coord, flow: real, ns: seq<Coord>)
    requires past.SameShape(cur) && past.Holds(p)
    requires p !in ns
    requires forall a, b :: 0 <= a < b < |ns| ==> ns[a] != ns[b]
    ensures forall q :: cur.Holds(q) ==>
              ElevationAt(Fire(past, cur, p, flow, ns), q)
              == ElevationAt(cur, q) + (if q == p || (q in ns && Below(past, p, q)) then flow else 0.0)
    ensures forall q :: cur.Holds(q) ==>
              LandUseAt(Fire(past, cur, p, flow, ns), q)
              == if q in ns && Below(past, p, q) && !IsSeaOrFlooded(LandUseAt(past, q))
                 then ApplyFlooding(LandUseAt(past, q)) else LandUseAt(cur, q)
  {
    var g := SetElevation(cur, p, ElevationAt(cur, p) + flow);
    SpreadEffect(past, g, p, flow, ns);
  }

  /** Firing adds flow once for p and once for every listed cell below p. */
  lemma FireTotal(past: Generation, cur: Generation, p: Coord, flow: real, ns: seq<Coord>)
    requires past.SameShape(cur) && past.Holds(p)
    ensures Total(Fire(past, cur, p, flow, ns).elevation)
            == Total(cur.elevation) + Times(flow, 1) + Times(flow, CountBelow(past, p, ns))
  {
    var v := ElevationAt(cur, p) + flow;
    var g := SetElevation(cur, p, v);
    SpreadTotal(past, g, p, flow, ns);
    TotalWrite(cur.elevation, p, v);
  }

  /**
   The rule at one cell p: when it fires, p gains Flow(past, rate, p) on its
   current elevation as it stands when p is visited, then its lower
   neighbours are drained in enumeration order.
   */
  function FloodCell(past: Generation, cur: Generation, rate: real, p: Coord): (next: Generation)
    requires past.SameShape(cur) && past.Holds(p)
    ensures next.SameShape(cur) && next.soil == cur.soil
    ensures !Triggers(past, p) ==> next == cur
  {
    if !Triggers(past, p) then cur
    else Fire(past, cur, p, Flow(past, rate, p), Neighbors(past.rows, past.cols, p, false))
  }

  /**
   When p's rule fires, p and each of its lower neighbours gain
   Flow(past, rate, p), and no other cell's elevation changes.
   */
  lemma FloodCellRaises(past: Generation, cur: Generation, rate: real, p: Coord)
    requires past.SameShape(cur) && past.Holds(p)
    ensures forall q :: cur.Holds(q) ==>
              ElevationAt(FloodCell(past, cur, rate, p), q)
              == ElevationAt(cur, q) + (if Triggers(past, p) && (q == p || Lower(past, p, q))
                                        then Flow(past, rate, p) else 0.0)
  {
    if Triggers(past, p) {
      var ns := Neighbors(past.rows, past.cols, p, false);
      SortedDistinct(ns);
      FireEffect(past, cur, p, Flow(past, rate, p), ns);
    }
  }

  /**
   The lower neighbours of a firing cell that were not sea or flooded take
   their flooded class, and no other land use changes.
   */
  lemma FloodCellFloods(past: Generation, cur: Generation, rate: real, p: Coord)
    requires past.SameShape(cur) && past.Holds(p)
    ensures forall q :: cur.Holds(q) ==>
              LandUseAt(FloodCell(past, cur, rate, p), q)
              == if Floods(past, p, q) then ApplyFlooding(LandUseAt(past, q)) else LandUseAt(cur, q)
  {
    if Triggers(past, p) {
      var ns := Neighbors(past.rows, past.cols, p, false);
      SortedDistinct(ns);
      FireEffect(past, cur, p, Flow(past, rate, p), ns);
    }
  }

  /** A firing cell adds exactly rate to the elevation total: Flow times (1 + lower neighbours). */
  lemma FloodCellTotal(past: Generation, cur: Generation, rate: real, p: Coord)
    requires past.SameShape(cur) && past.Holds(p)
    ensures Total(FloodCell(past, cur, rate, p).elevation)
            == Total(cur.elevation) + (if Triggers(past, p) then rate else 0.0)
  {
    if Triggers(past, p) {
      var ns := Neighbors(past.rows, past.cols, p, false);
      var k := CountBelow(past, p, ns);
      var flow := Share(rate, k);
      FireTotal(past, cur, p, flow, ns);
      TimesAdd(flow, 1, k);
    }
  }

  // ---------------------------------------------------------------------------
  // The whole pass, in row-major order

  /** Some cell visited before b floods q. */
  ghost predicate InundatedBefore(past: Generation, q: Coord, b: Coord)
    requires past.Valid()
  {
    exists p :: past.Holds(p) && Precedes(p, b) && Floods(past, p, q)
  }

  /** Some cell of the grid floods q. */
  ghost predicate Inundated(past: Generation, q: Coord)
    requires past.Valid()
  {
    exists p :: past.Holds(p) && Floods(past, p, q)
  }

  /** Some firing cell visited before b raises q: q is that cell or one of its lower neighbours. */
  ghost predicate WetBefore(past: Generation, q: Coord, b: Coord)
    requires past.Valid()
  {
    exists p :: past.Holds(p) && Precedes(p, b) && Triggers(past, p) && (q == p || Lower(past, p, q))
  }

  /** Some firing cell raises q. */
  ghost predicate Wet(past: Generation, q: Coord)
    requires past.Valid()
  {
    exists p :: past.Holds(p) && Triggers(past, p) && (q == p || Lower(past, p, q))
  }

  /** No cell triggers the rule. */
  ghost predicate Quiet(past: Generation)
    requires past.Valid()
  {
    forall p :: past.Holds(p) ==> !Triggers(past, p)
  }

  /** next is what the pass makes of cur once it has visited every cell before b. */
  ghost predicate FloodedBefore(past: Generation, cur: Generation, next: Generation, rate: real, b: Coord)
    requires past.SameShape(cur)
  {
    && next.SameShape(cur) && next.soil == cur.soil
    && (forall q :: cur.Holds(q) ==>
          LandUseAt(next, q) == if InundatedBefore(past, q, b) then ApplyFlooding(LandUseAt(past, q))
                                 else LandUseAt(cur, q))
    && (rate >= 0.0 ==> forall q :: cur.Holds(q) ==> ElevationAt(next, q) >= ElevationAt(cur, q))
    && (forall q :: cur.Holds(q) && !WetBefore(past, q, b) ==> ElevationAt(next, q) == ElevationAt(cur, q))
  }

  /** Before any cell is visited nothing has changed. */
  lemma FloodStart(past: Generation, cur: Generation, rate: real)
    requires past.SameShape(cur)
    ensures FloodedBefore(past, cur, cur, rate, Coord(0, 0)) && RisenRows(past, cur, cur, rate, 0, 0)
  {
  }

  /** Cell (i, j) is the one cell that precedes (i, j + 1) but not (i, j). */
  lemma VisitExtends(past: Generation, q: Coord, i: nat, j: nat)
    requires past.Valid() && i < past.rows && j < past.cols
    ensures InundatedBefore(past, q, Coord(i, j + 1))
            <==> InundatedBefore(past, q, Coord(i, j)) || Floods(past, Coord(i, j), q)
    ensures WetBefore(past, q, Coord(i, j + 1))
            <==> WetBefore(past, q, Coord(i, j))
                 || (Triggers(past, Coord(i, j)) && (q == Coord(i, j) || Lower(past, Coord(i, j), q)))
  {
  }

  /** Visiting cell b extends the visited prefix by b. */
  lemma FloodStep(past: Generation, cur: Generation, next: Generation, rate: real, i: nat, j: nat)
    requires past.SameShape(cur) && i < past.rows && j < past.cols
    requires FloodedBefore(past, cur, next, rate, Coord(i, j))
    ensures FloodedBefore(past, cur, FloodCell(past, next, rate, Coord(i, j)), rate, Coord(i, j + 1))
  {
    var b := Coord(i, j);
    var next' := FloodCell(past, next, rate, b);
    var b' := Coord(i, j + 1);
    FloodCellRaises(past, next, rate, b);
    FloodCellFloods(past, next, rate, b);
    forall q | cur.Holds(q)
      ensures InundatedBefore(past, q, b') <==> InundatedBefore(past, q, b) || Floods(past, b, q)
      ensures WetBefore(past, q, b') <==> WetBefore(past, q, b) || (Triggers(past, b) && (q == b || Lower(past, b, q)))
    {
      VisitExtends(past, q, i, j);
    }
    if rate >= 0.0 {
      assert Flow(past, rate, b) >= 0.0;
    }
  }

  /** What p's rule adds to q's elevation: p's flow when p fires and q is p or one of its lower neighbours. */
  function Gain(past: Generation, rate: real, p: Coord, q: Coord): real
    requires past.Valid() && past.Holds(p)
  {
    if Triggers(past, p) && (q == p || Lower(past, p, q)) then Flow(past, rate, p) else 0.0
  }

  /** What the cells of row i in columns 0..j-1 add to q's elevation. */
  function RowRise(past: Generation, rate: real, q: Coord, i: int, j: int): real
    requires past.Valid() && 0 <= i < past.rows && 0 <= j <= past.cols
  {
    if j == 0 then 0.0 else RowRise(past, rate, q, i, j - 1) + Gain(past, rate, Coord(i, j - 1), q)
  }

  /** What the cells of rows 0..i-1 add to q's elevation. */
  function RiseAbove(past: Generation, rate: real, q: Coord, i: int): real
    requires past.Valid() && 0 <= i <= past.rows
  {
    if i == 0 then 0.0 else RiseAbove(past, rate, q, i - 1) + RowRise(past, rate, q, i - 1, past.cols)
  }

  /** What the whole pass adds to q's elevation: the sum of the gains from every cell. */
  function Rise(past: Generation, rate: real, q: Coord): real
    requires past.Valid()
  {
    RiseAbove(past, rate, q, past.rows)
  }

  /** When only p can add to q, the cells of row i before column j add p's gain exactly when p is one of them. */
  lemma {:induction false} RowRiseOneSource(past: Generation, rate: real, p: Coord, q: Coord, i: int, j: int)
    requires past.Valid() && past.Holds(p) && 0 <= i < past.rows && 0 <= j <= past.cols
    requires forall p' :: past.Holds(p') && p' != p ==> Gain(past, rate, p', q) == 0.0
    ensures RowRise(past, rate, q, i, j) == if p.r == i && p.c < j then Gain(past, rate, p, q) else 0.0
    decreases j
  {
    if j > 0 {
      RowRiseOneSource(past, rate, p, q, i, j - 1);
      assert past.Holds(Coord(i, j - 1));
    }
  }

  /** When only p can add to q, the rows before row i add p's gain exactly when p lies in one of them. */
  lemma {:induction false} RiseAboveOneSource(past: Generation, rate: real, p: Coord, q: Coord, i: int)
    requires past.Valid() && past.Holds(p) && 0 <= i <= past.rows
    requires forall p' :: past.Holds(p') && p' != p ==> Gain(past, rate, p', q) == 0.0
    ensures RiseAbove(past, rate, q, i) == if p.r < i then Gain(past, rate, p, q) else 0.0
    decreases i
  {
    if i > 0 {
      RiseAboveOneSource(past, rate, p, q, i - 1);
      RowRiseOneSource(past, rate, p, q, i - 1, past.cols);
    }
  }

  /**
   A cell reached by exactly one firing cell p, whatever p's place in the
   visiting order, rises by p's flow: rate / (1 + p's lower neighbours).
   */
  lemma RiseFromOneSource(past: Generation, rate: real, p: Coord, q: Coord)
    requires past.Valid() && past.Holds(p)
    requires Triggers(past, p) && (q == p || Lower(past, p, q))
    requires forall p' :: past.Holds(p') && p' != p && Triggers(past, p') ==> q != p' && !Lower(past, p', q)
    ensures Rise(past, rate, q) == Flow(past, rate, p)
  {
    RiseAboveOneSource(past, rate, p, q, past.rows);
  }

  /** Number of triggering cells in row i among columns 0..j-1. */
  function RowTriggers(past: Generation, i: int, j: int): nat
    requires past.Valid() && 0 <= i < past.rows && 0 <= j <= past.cols
  {
    if j == 0 then 0 else RowTriggers(past, i, j - 1) + (if Triggers(past, Coord(i, j - 1)) then 1 else 0)
  }

  /** Number of triggering cells in rows 0..i-1. */
  function TriggersAbove(past: Generation, i: int): nat
    requires past.Valid() && 0 <= i <= past.rows
  {
    if i == 0 then 0 else TriggersAbove(past, i - 1) + RowTriggers(past, i - 1, past.cols)
  }

  /** Number of cells at which the rule fires. */
  function TriggerCount(past: Generation): nat
    requires past.Valid()
  {
    TriggersAbove(past, past.rows)
  }

  /**
   After the visits of rows 0..i-1 and columns 0..j-1 of row i, fired
   counts the firing cells among them, the total has risen by rate for each,
   and every cell's elevation has risen by the gains those cells give it.
   */
  ghost predicate Risen(past: Generation, cur: Generation, next: Generation, rate: real, i: int, j: int, fired: nat)
    requires past.SameShape(cur) && 0 <= i < past.rows && 0 <= j <= past.cols
  {
    && next.SameShape(cur)
    && fired == TriggersAbove(past, i) + RowTriggers(past, i, j)
    && Total(next.elevation) == Total(cur.elevation) + Times(rate, fired)
    && forall q :: cur.Holds(q) ==>
         ElevationAt(next, q) == ElevationAt(cur, q) + RiseAbove(past, rate, q, i) + RowRise(past, rate, q, i, j)
  }

  /** As Risen, once the pass has visited exactly rows 0..i-1. */
  ghost predicate RisenRows(past: Generation, cur: Generation, next: Generation, rate: real, i: int, fired: nat)
    requires past.SameShape(cur) && 0 <= i <= past.rows
  {
    && next.SameShape(cur)
    && fired == TriggersAbove(past, i)
    && Total(next.elevation) == Total(cur.elevation) + Times(rate, fired)
    && forall q :: cur.Holds(q) ==> ElevationAt(next, q) == ElevationAt(cur, q) + RiseAbove(past, rate, q, i)
  }

  /** Visiting (i, j) adds that cell's gains to the elevations and its firing to the count and the total. */
  lemma RisenStep(past: Generation, cur: Generation, next: Generation, rate: real, i: nat, j: nat, n: nat)
    requires past.SameShape(cur) && i < past.rows && j < past.cols
    requires Risen(past, cur, next, rate, i, j, n)
    ensures Risen(past, cur, FloodCell(past, next, rate, Coord(i, j)), rate, i, j + 1,
                  n + if Triggers(past, Coord(i, j)) then 1 else 0)
  {
    RowRiseStep(past, cur, next, rate, i, j);
    FloodCellTotal(past, next, rate, Coord(i, j));
    TimesAdd(rate, n, 1);
  }

  /** The elevation half of RisenStep: visiting (i, j) adds that cell's gain to every elevation. */
  lemma RowRiseStep(past: Generation, cur: Generation, next: Generation, rate: real, i: nat, j: nat)
    requires past.SameShape(cur) && next.SameShape(cur) && i < past.rows && j < past.cols
    requires forall q :: cur.Holds(q) ==>
               ElevationAt(next, q) == ElevationAt(cur, q) + RiseAbove(past, rate, q, i) + RowRise(past, rate, q, i, j)
    ensures forall q :: cur.Holds(q) ==>
              ElevationAt(FloodCell(past, next, rate, Coord(i, j)), q)
              == ElevationAt(cur, q) + RiseAbove(past, rate, q, i) + RowRise(past, rate, q, i, j + 1)
  {
    FloodCellRaises(past, next, rate, Coord(i, j));
    forall q | cur.Holds(q)
      ensures ElevationAt(FloodCell(past, next, rate, Coord(i, j)), q)
              == ElevationAt(cur, q) + RiseAbove(past, rate, q, i) + RowRise(past, rate, q, i, j + 1)
    {
      assert RowRise(past, rate, q, i, j + 1) == RowRise(past, rate, q, i, j) + Gain(past, rate, Coord(i, j), q);
    }
  }

  /** The loop body of the pass: visiting (i, j) extends the visited prefix by that cell. */
  method FloodVisit(past: Generation, cur: Generation, next: Generation, rate: real, i: nat, j: nat, ghost n: nat)
    returns (next': Generation, ghost n': nat)
    requires past.SameShape(cur) && i < past.rows && j < past.cols
    requires FloodedBefore(past, cur, next, rate, Coord(i, j)) && Risen(past, cur, next, rate, i, j, n)
    ensures FloodedBefore(past, cur, next', rate, Coord(i, j + 1)) && Risen(past, cur, next', rate, i, j + 1, n')
  {
    FloodStep(past, cur, next, rate, i, j);
    RisenStep(past, cur, next, rate, i, j, n);
    next' := FloodCell(past, next, rate, Coord(i, j));
    n' := n + if Triggers(past, Coord(i, j)) then 1 else 0;
  }

  /** Having visited all of row i is the same as standing at the start of row i + 1. */
  lemma FloodRowEnd(past: Generation, cur: Generation, next: Generation, rate: real, i: int, fired: nat)
    requires past.SameShape(cur) && 0 <= i < past.rows
    requires FloodedBefore(past, cur, next, rate, Coord(i, past.cols)) && Risen(past, cur, next, rate, i, past.cols, fired)
    ensures FloodedBefore(past, cur, next, rate, Coord(i + 1, 0)) && RisenRows(past, cur, next, rate, i + 1, fired)
  {
  }

  /** The rule at every cell of row i, left to right, continuing a pass that has fired n times so far. */
  method FloodRow(past: Generation, cur: Generation, start: Generation, rate: real, i: nat, ghost n: nat)
    returns (next: Generation, ghost fired: nat)
    requires past.SameShape(cur) && i < past.rows
    requires FloodedBefore(past, cur, start, rate, Coord(i, 0)) && RisenRows(past, cur, start, rate, i, n)
    ensures FloodedBefore(past, cur, next, rate, Coord(i + 1, 0)) && RisenRows(past, cur, next, rate, i + 1, fired)
  {
    next := start;
    fired := n;
    var j := 0;
    while j < past.cols
      invariant 0 <= j <= past.cols
      invariant FloodedBefore(past, cur, next, rate, Coord(i, j)) && Risen(past, cur, next, rate, i, j, fired)
    {
      next, fired := FloodVisit(past, cur, next, rate, i, j, fired);
      j := j + 1;
    }
    FloodRowEnd(past, cur, next, rate, i, fired);
  }

  /**
   What a whole pass promises about next, the generation it makes of cur
   under the triggers of past: soil is untouched; land use ends up flooded
   exactly at the cells some triggering cell floods, whatever the order;
   each cell's elevation rises by the sum of the flows of the firing cells
   that reach it, Rise; elevation never drops when the rate is non-negative, and stays put where
   no triggering cell reaches; each firing cell adds exactly rate to the
   total elevation; when no cell triggers, nothing changes.
   */
  ghost predicate FloodPassOutcome(past: Generation, cur: Generation, rate: real, next: Generation)
    requires past.SameShape(cur)
  {
    && next.SameShape(cur) && next.soil == cur.soil
    && (forall q :: cur.Holds(q) ==>
          LandUseAt(next, q) == if Inundated(past, q) then ApplyFlooding(LandUseAt(past, q))
                                else LandUseAt(cur, q))
    && (rate >= 0.0 ==> forall q :: cur.Holds(q) ==> ElevationAt(next, q) >= ElevationAt(cur, q))
    && (forall q :: cur.Holds(q) && !Wet(past, q) ==> ElevationAt(next, q) == ElevationAt(cur, q))
    && (forall q :: cur.Holds(q) ==> ElevationAt(next, q) == ElevationAt(cur, q) + Rise(past, rate, q))
    && Total(next.elevation) == Total(cur.elevation) + Times(rate, TriggerCount(past))
    && (Quiet(past) ==> next == cur)
  }

  /** Once every cell has been visited, the prefix properties are the pass's properties. */
  lemma FloodEnd(past: Generation, cur: Generation, next: Generation, rate: real, fired: nat)
    requires past.SameShape(cur)
    requires FloodedBefore(past, cur, next, rate, Coord(past.rows, 0)) && RisenRows(past, cur, next, rate, past.rows, fired)
    ensures FloodPassOutcome(past, cur, rate, next)
  {
    var end := Coord(past.rows, 0);
    forall q | cur.Holds(q)
      ensures InundatedBefore(past, q, end) <==> Inundated(past, q)
      ensures WetBefore(past, q, end) <==> Wet(past, q)
    {
      if Inundated(past, q) {
        var p :| past.Holds(p) && Floods(past, p, q);
        assert Precedes(p, end);
      }
      if Wet(past, q) {
        var p :| past.Holds(p) && Triggers(past, p) && (q == p || Lower(past, p, q));
        assert Precedes(p, end);
      }
    }
    if Quiet(past) {
      GenerationsEqual(next, cur);
    }
  }

  /**
   The flood pass: the rule at every cell, in row-major order, each call
   reading the triggers and lower neighbours of past and writing into the
   generation the calls before it left.
   */
  method FloodPass(past: Generation, cur: Generation, rate: real) returns (next: Generation)
    requires past.SameShape(cur)
    ensures FloodPassOutcome(past, cur, rate, next)
  {
    ghost var fired;
    next, fired := FloodRows(past, cur, rate);
    FloodEnd(past, cur, next, rate, fired);
  }

  /** The row loop of the pass: after it, every cell has been visited. */
  method FloodRows(past: Generation, cur: Generation, rate: real) returns (next: Generation, ghost fired: nat)
    requires past.SameShape(cur)
    ensures FloodedBefore(past, cur, next, rate, Coord(past.rows, 0)) && RisenRows(past, cur, next, rate, past.rows, fired)
  {
    next := cur;
    FloodStart(past, cur, rate);
    fired := 0;
    var i := 0;
    while i < past.rows
      invariant 0 <= i <= past.rows
      invariant FloodedBefore(past, cur, next, rate, Coord(i, 0)) && RisenRows(past, cur, next, rate, i, fired)
    {
      next, fired := FloodRow(past, cur, next, rate, i, fired);
      i := i + 1;
    }
  }

  /**
   A cell the pass inundates changes class exactly when its past class was
   floodable, and then ends sea-or-flooded; a reached cell of any other
   class (migrated mangrove, say) keeps its past class. Either way its new
   class is one that flooding leaves alone.
   */
  lemma InundatedLandUse(past: Generation, cur: Generation, rate: real, next: Generation, q: Coord)
    requires past.SameShape(cur) && FloodPassOutcome(past, cur, rate, next)
    requires cur.Holds(q) && Inundated(past, q)
    ensures LandUseAt(next, q) != LandUseAt(past, q) <==> IsFloodable(LandUseAt(past, q))
    ensures IsSeaOrFlooded(LandUseAt(next, q)) <==> IsFloodable(LandUseAt(past, q))
    ensures ApplyFlooding(LandUseAt(next, q)) == LandUseAt(next, q)
  {
    var u := LandUseAt(past, q);
    var p :| past.Holds(p) && Floods(past, p, q);
    assert !IsSeaOrFlooded(u);
    assert LandUseAt(next, q) == ApplyFlooding(u);
    FloodingMovesOnlyFloodable(u);
    FloodingResultClass(u);
    FloodingIdempotent(u);
  }
}
