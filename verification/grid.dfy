/**
 The cellular space: three co-registered rectangular fields (land use,
 elevation, soil class) held in a current and a past generation, with
 per-cell access, the synchronisation step and the Moore-neighbourhood
 enumeration in its fixed offset order.
 */
module Grid {

  datatype Coord = Coord(r: int, c: int)

  /** Row-major order: ascending row, then ascending column. */
  predicate Precedes(a: Coord, b: Coord) {
    a.r < b.r || (a.r == b.r && a.c < b.c)
  }

  predicate InBounds(p: Coord, rows: nat, cols: nat) {
    0 <= p.r < rows && 0 <= p.c < cols
  }

  /** q lies in the 3x3 block centred on p (p itself included). */
  predicate Adjacent(p: Coord, q: Coord) {
    -1 <= q.r - p.r <= 1 && -1 <= q.c - p.c <= 1
  }

  /** A rectangular rows x cols field. */
  predicate Shaped<T>(f: seq<seq<T>>, rows: nat, cols: nat) {
    |f| == rows && forall i :: 0 <= i < |f| ==> |f[i]| == cols
  }

  /** f with the single cell p replaced by v. */
  function Write<T>(f: seq<seq<T>>, p: Coord, v: T): (f': seq<seq<T>>)
    requires 0 <= p.r < |f| && 0 <= p.c < |f[p.r]|
    ensures |f'| == |f| && forall i :: 0 <= i < |f| ==> |f'[i]| == |f[i]|
    ensures forall i, j :: 0 <= i < |f| && 0 <= j < |f[i]| ==>
              f'[i][j] == if i == p.r && j == p.c then v else f[i][j]
  {
    f[p.r := f[p.r][p.c := v]]
  }

  /** Two equally shaped fields that agree on every cell are equal. */
  lemma FieldsEqual<T>(f: seq<seq<T>>, g: seq<seq<T>>, rows: nat, cols: nat)
    requires Shaped(f, rows, cols) && Shaped(g, rows, cols)
    requires forall i, j :: 0 <= i < rows && 0 <= j < cols ==> f[i][j] == g[i][j]
    ensures f == g
  {
    forall i | 0 <= i < rows
      ensures f[i] == g[i]
    {
      assert forall j :: 0 <= j < cols ==> f[i][j] == g[i][j];
    }
  }

  /** One generation of the three fields. */
  datatype Generation = Generation(rows: nat, cols: nat,
                                   landUse: seq<seq<int>>,
                                   elevation: seq<seq<real>>,
                                   soil: seq<seq<int>>)
  {
    predicate Valid() {
      Shaped(landUse, rows, cols) && Shaped(elevation, rows, cols) && Shaped(soil, rows, cols)
    }

    predicate Holds(p: Coord) {
      InBounds(p, rows, cols)
    }

    predicate SameShape(other: Generation) {
      Valid() && other.Valid() && rows == other.rows && cols == other.cols
    }
  }

  /** The values of one cell. */
  datatype Cell = Cell(landUse: int, elevation: real, soil: int)

  /** The current and the past generation; the past one is only read by the flood rule. */
  datatype Space = Space(current: Generation, past: Generation)
  {
    predicate Valid() {
      current.SameShape(past)
    }
  }

  datatype Error = ShapeMismatch

  datatype Result<T> = Success(value: T) | Failure(error: Error)

  function LandUseAt(g: Generation, p: Coord): int
    requires g.Valid() && g.Holds(p)
  {
    g.landUse[p.r][p.c]
  }

  function ElevationAt(g: Generation, p: Coord): real
    requires g.Valid() && g.Holds(p)
  {
    g.elevation[p.r][p.c]
  }

  function SoilAt(g: Generation, p: Coord): int
    requires g.Valid() && g.Holds(p)
  {
    g.soil[p.r][p.c]
  }

  /** The values held by cell p of generation g. */
  function At(g: Generation, p: Coord): Cell
    requires g.Valid() && g.Holds(p)
  {
    Cell(LandUseAt(g, p), ElevationAt(g, p), SoilAt(g, p))
  }

  /** Writes the land use of cell p; no other cell and no other field changes. */
  function SetLandUse(g: Generation, p: Coord, v: int): (g': Generation)
    requires g.Valid() && g.Holds(p)
    ensures g'.SameShape(g) && g'.elevation == g.elevation && g'.soil == g.soil
    ensures forall q :: g.Holds(q) ==> LandUseAt(g', q) == if q == p then v else LandUseAt(g, q)
  {
    g.(landUse := Write(g.landUse, p, v))
  }

  /** Writes the elevation of cell p; no other cell and no other field changes. */
  function SetElevation(g: Generation, p: Coord, v: real): (g': Generation)
    requires g.Valid() && g.Holds(p)
    ensures g'.SameShape(g) && g'.landUse == g.landUse && g'.soil == g.soil
    ensures forall q :: g.Holds(q) ==> ElevationAt(g', q) == if q == p then v else ElevationAt(g, q)
  {
    g.(elevation := Write(g.elevation, p, v))
  }

  /** Writes the soil class of cell p; no other cell and no other field changes. */
  function SetSoil(g: Generation, p: Coord, v: int): (g': Generation)
    requires g.Valid() && g.Holds(p)
    ensures g'.SameShape(g) && g'.landUse == g.landUse && g'.elevation == g.elevation
    ensures forall q :: g.Holds(q) ==> SoilAt(g', q) == if q == p then v else SoilAt(g, q)
  {
    g.(soil := Write(g.soil, p, v))
  }

  /** Two generations of one shape that agree on every cell are equal. */
  lemma GenerationsEqual(g: Generation, h: Generation)
    requires g.SameShape(h)
    requires forall q :: g.Holds(q) ==> At(g, q) == At(h, q)
    ensures g == h
  {
    forall i, j | 0 <= i < g.rows && 0 <= j < g.cols
      ensures g.landUse[i][j] == h.landUse[i][j]
      ensures g.elevation[i][j] == h.elevation[i][j]
      ensures g.soil[i][j] == h.soil[i][j]
    {
      assert g.Holds(Coord(i, j));
    }
    FieldsEqual(g.landUse, h.landUse, g.rows, g.cols);
    FieldsEqual(g.elevation, h.elevation, g.rows, g.cols);
    FieldsEqual(g.soil, h.soil, g.rows, g.cols);
  }

  /** Column count of a field, taken from its first row. */
  function Width<T>(f: seq<seq<T>>): nat {
    if |f| == 0 then 0 else |f[0]|
  }

  /**
   Builds the cellular space from three input grids. Both generations start
   equal to the inputs. Grids that are not rectangles of one common shape are
   refused with ShapeMismatch.
   */
  function NewSpace(landUse: seq<seq<int>>, elevation: seq<seq<real>>, soil: seq<seq<int>>): (r: Result<Space>)
    ensures r.Success? <==>
              exists cols: nat :: Shaped(landUse, |landUse|, cols) && Shaped(elevation, |landUse|, cols)
                                  && Shaped(soil, |landUse|, cols)
    ensures r.Success? ==> r.value.Valid() && r.value.past == r.value.current
    ensures r.Success? ==> r.value.current.rows == |landUse| && r.value.current.landUse == landUse
                           && r.value.current.elevation == elevation && r.value.current.soil == soil
  {
    var rows, cols := |landUse|, Width(landUse);
    if Shaped(landUse, rows, cols) && Shaped(elevation, rows, cols) && Shaped(soil, rows, cols) then
      var g := Generation(rows, cols, landUse, elevation, soil);
      Success(Space(g, g))
    else
      Failure(ShapeMismatch)
  }

  /** Copies the current generation into the past one. */
  function Synchronize(s: Space): (s': Space)
    requires s.Valid()
    ensures s'.Valid() && s'.past == s'.current
    ensures s'.current == s.current
  {
    Space(s.current, s.current)
  }

  // ---------------------------------------------------------------------------
  // Field totals

  function RowTotal(row: seq<real>): real {
    if row == [] then 0.0 else RowTotal(row[..|row| - 1]) + row[|row| - 1]
  }

  /** The sum of every cell of a real-valued field. */
  function Total(f: seq<seq<real>>): real {
    if f == [] then 0.0 else Total(f[..|f| - 1]) + RowTotal(f[|f| - 1])
  }

  lemma {:induction false} RowTotalUpdate(row: seq<real>, j: int, v: real)
    requires 0 <= j < |row|
    ensures RowTotal(row[j := v]) == RowTotal(row) - row[j] + v
  {
    var n := |row| - 1;
    if j < n {
      RowTotalUpdate(row[..n], j, v);
      assert row[j := v][..n] == row[..n][j := v];
    } else {
      assert row[j := v][..n] == row[..n];
    }
  }

  /** Writing v into one cell changes the field total by v minus the old value. */
  lemma {:induction false} TotalWrite(f: seq<seq<real>>, p: Coord, v: real)
    requires 0 <= p.r < |f| && 0 <= p.c < |f[p.r]|
    ensures Total(Write(f, p, v)) == Total(f) - f[p.r][p.c] + v
  {
    var n := |f| - 1;
    var f' := Write(f, p, v);
    if p.r < n {
      TotalWrite(f[..n], p, v);
      assert f'[..n] == Write(f[..n], p, v);
      assert f'[n] == f[n];
    } else {
      assert f'[..n] == f[..n];
      RowTotalUpdate(f[n], p.c, v);
    }
  }

  // ---------------------------------------------------------------------------
  // Moore neighbourhood

  /** The nine offsets in enumeration order: row offset outer, column offset inner. */
  const Offsets: seq<Coord> := [Coord(-1, -1), Coord(-1, 0), Coord(-1, 1),
                                Coord(0, -1), Coord(0, 0), Coord(0, 1),
                                Coord(1, -1), Coord(1, 0), Coord(1, 1)]

  function Shift(p: Coord, o: Coord): Coord {
    Coord(p.r + o.r, p.c + o.c)
  }

  predicate StrictlySorted(xs: seq<Coord>) {
    forall a, b :: 0 <= a < b < |xs| ==> Precedes(xs[a], xs[b])
  }

  /** The offsets are listed in strictly increasing row-major order. */
  lemma OffsetsSorted()
    ensures StrictlySorted(Offsets)
  {
  }

  /** An offset is listed exactly when both of its components lie in -1..1. */
  lemma OffsetsCover(o: Coord)
    ensures o in Offsets <==> -1 <= o.r <= 1 && -1 <= o.c <= 1
  {
  }

  /**
   The cells p + o, for o in offs in list order, that lie inside a rows x cols
   grid; the centre itself only when includeSelf holds.
   */
  function Enumerate(rows: nat, cols: nat, p: Coord, includeSelf: bool, offs: seq<Coord>): (ns: seq<Coord>)
    ensures |ns| <= |offs|
    ensures !includeSelf && Coord(0, 0) in offs ==> |ns| < |offs|
    ensures forall q {:trigger q in ns} :: q in ns <==>
              InBounds(q, rows, cols) && (includeSelf || q != p) && Coord(q.r - p.r, q.c - p.c) in offs
  {
    if offs == [] then []
    else
      var n := Shift(p, offs[0]);
      var rest := Enumerate(rows, cols, p, includeSelf, offs[1..]);
      assert offs == [offs[0]] + offs[1..];
      if InBounds(n, rows, cols) && (includeSelf || offs[0] != Coord(0, 0)) then [n] + rest else rest
  }

  /** Every enumerated cell is the centre shifted by a later offset than offs[0]. */
  lemma EnumerateAfterHead(rows: nat, cols: nat, p: Coord, includeSelf: bool, offs: seq<Coord>)
    requires StrictlySorted(offs) && offs != []
    ensures forall q :: q in Enumerate(rows, cols, p, includeSelf, offs[1..]) ==> Precedes(Shift(p, offs[0]), q)
  {
  }

  /** Enumeration keeps the order of the offset list. */
  lemma {:induction false} EnumerateSorted(rows: nat, cols: nat, p: Coord, includeSelf: bool, offs: seq<Coord>)
    requires StrictlySorted(offs)
    ensures StrictlySorted(Enumerate(rows, cols, p, includeSelf, offs))
  {
    if offs != [] {
      var rest := Enumerate(rows, cols, p, includeSelf, offs[1..]);
      assert StrictlySorted(offs[1..]) by {
        forall a, b | 0 <= a < b < |offs[1..]|
          ensures Precedes(offs[1..][a], offs[1..][b])
        {
          assert offs[1..][a] == offs[a + 1] && offs[1..][b] == offs[b + 1];
        }
      }
      EnumerateSorted(rows, cols, p, includeSelf, offs[1..]);
      EnumerateAfterHead(rows, cols, p, includeSelf, offs);
      var ns := Enumerate(rows, cols, p, includeSelf, offs);
      if ns != rest {
        SortedCons(Shift(p, offs[0]), rest);
      }
    }
  }

  /** Putting a cell before a sorted list of later cells keeps it sorted. */
  lemma SortedCons(n: Coord, rest: seq<Coord>)
    requires StrictlySorted(rest)
    requires forall q :: q in rest ==> Precedes(n, q)
    ensures StrictlySorted([n] + rest)
  {
  }

  /**
   The Moore neighbourhood of p in a rows x cols grid, enumerated with the row
   offset outer and the column offset inner, without wrap-around.
   */
  function Neighbors(rows: nat, cols: nat, p: Coord, includeSelf: bool): (ns: seq<Coord>)
    ensures |ns| <= if includeSelf then 9 else 8
    ensures forall q {:trigger q in ns} :: q in ns <==> InBounds(q, rows, cols) && Adjacent(p, q) && (includeSelf || q != p)
    ensures StrictlySorted(ns)
  {
    OffsetsSorted();
    EnumerateSorted(rows, cols, p, includeSelf, Offsets);
    forall q: Coord
      ensures Coord(q.r - p.r, q.c - p.c) in Offsets <==> Adjacent(p, q)
    {
      OffsetsCover(Coord(q.r - p.r, q.c - p.c));
    }
    Enumerate(rows, cols, p, includeSelf, Offsets)
  }

  /** Strict row-major order leaves no room for a repeated cell. */
  lemma SortedDistinct(xs: seq<Coord>)
    requires StrictlySorted(xs)
    ensures forall a, b :: 0 <= a < |xs| && 0 <= b < |xs| && a != b ==> xs[a] != xs[b]
  {
  }
}
