/**
 Land-use accounting: per-class area totals of a land-use field, plus their
 grand total. Codes outside the ten recognised classes are skipped.
 */
module Accounting {
  import opened Codes
  import opened Quantities

  /** Number of occurrences of u in xs. */
  function Count(xs: seq<int>, u: int): nat {
    if xs == [] then 0
    else Count(xs[..|xs| - 1], u) + (if xs[|xs| - 1] == u then 1 else 0)
  }

  /** Number of elements of xs in the range lo..hi-1. */
  function CountIn(xs: seq<int>, lo: int, hi: int): nat {
    if xs == [] then 0
    else CountIn(xs[..|xs| - 1], lo, hi) + (if lo <= xs[|xs| - 1] < hi then 1 else 0)
  }

  /** Count(xs, lo) + ... + Count(xs, hi - 1). */
  function SumCounts(xs: seq<int>, lo: int, hi: int): nat
    decreases hi - lo
  {
    if hi <= lo then 0 else SumCounts(xs, lo, hi - 1) + Count(xs, hi - 1)
  }

  /** The cells of a field, row after row. */
  function Flatten(f: seq<seq<int>>): seq<int> {
    if f == [] then [] else Flatten(f[..|f| - 1]) + f[|f| - 1]
  }

  /** Area in hectares per land-use code, and the sum of those areas. */
  datatype Record = Record(areas: map<int, real>, total: real)

  /** The ten recognised codes, the keys of every record. */
  const Classes: set<int> := set u | Mangrove <= u <= TerrestrialVegetationFlooded

  lemma ClassesAreCodes(u: int)
    ensures u in Classes <==> IsLandUseCode(u)
  {
  }

  /** A record with every class area at zero. */
  function Zeroed(): (rec: Record)
    ensures rec.areas.Keys == Classes
    ensures forall u :: u in rec.areas ==> rec.areas[u] == 0.0
    ensures rec.total == 0.0
  {
    Record(map u | u in Classes :: 0.0, 0.0)
  }

  /** Widening the range by its top code adds that code's occurrences. */
  lemma {:induction false} CountInExtend(xs: seq<int>, lo: int, hi: int)
    requires lo <= hi
    ensures CountIn(xs, lo, hi + 1) == CountIn(xs, lo, hi) + Count(xs, hi)
  {
    if xs != [] {
      CountInExtend(xs[..|xs| - 1], lo, hi);
    }
  }

  /** The per-code counts of lo..hi-1 add up to the count of the whole range. */
  lemma {:induction false} CountsAddUp(xs: seq<int>, lo: int, hi: int)
    requires lo <= hi
    ensures SumCounts(xs, lo, hi) == CountIn(xs, lo, hi)
    decreases hi - lo
  {
    if hi == lo {
      CountInEmpty(xs, lo);
    } else {
      CountsAddUp(xs, lo, hi - 1);
      CountInExtend(xs, lo, hi - 1);
    }
  }

  lemma {:induction false} CountInEmpty(xs: seq<int>, lo: int)
    ensures CountIn(xs, lo, lo) == 0
  {
    if xs != [] {
      CountInEmpty(xs[..|xs| - 1], lo);
    }
  }

  /** When every value is a recognised code, the recognised count is the length. */
  lemma {:induction false} AllKnownCounted(xs: seq<int>)
    requires forall k :: 0 <= k < |xs| ==> IsLandUseCode(xs[k])
    ensures CountIn(xs, Mangrove, TerrestrialVegetationFlooded + 1) == |xs|
  {
    if xs != [] {
      AllKnownCounted(xs[..|xs| - 1]);
    }
  }

  /** Flattening a rows x cols field yields rows * cols values. */
  lemma {:induction false} FlattenLength(f: seq<seq<int>>, rows: nat, cols: nat)
    requires |f| == rows && forall i :: 0 <= i < rows ==> |f[i]| == cols
    ensures |Flatten(f)| == rows * cols
  {
    if rows > 0 {
      FlattenLength(f[..rows - 1], rows - 1, cols);
      assert (rows - 1) * cols + cols == rows * cols;
    }
  }

  /** Every cell of a field whose cells all hold recognised codes flattens to a recognised code. */
  lemma {:induction false} FlattenKnown(f: seq<seq<int>>)
    requires forall i, j :: 0 <= i < |f| && 0 <= j < |f[i]| ==> IsLandUseCode(f[i][j])
    ensures forall k :: 0 <= k < |Flatten(f)| ==> IsLandUseCode(Flatten(f)[k])
  {
    if f != [] {
      var init := f[..|f| - 1];
      FlattenKnown(init);
      assert Flatten(f) == Flatten(init) + f[|f| - 1];
    }
  }

  /** Crediting one more cell of class v keeps every class area at cellArea times its count. */
  lemma TallyStep(xs: seq<int>, v: int, areas: map<int, real>, cellArea: real)
    requires areas.Keys == Classes
    requires forall u :: u in Classes ==> areas[u] == Times(cellArea, Count(xs, u))
    ensures var areas' := if v in areas then areas[v := areas[v] + cellArea] else areas;
            forall u :: u in Classes ==> areas'[u] == Times(cellArea, Count(xs + [v], u))
  {
    var ys := xs + [v];
    assert ys[..|ys| - 1] == xs;
    if v in areas {
      TimesAdd(cellArea, Count(xs, v), 1);
    }
  }

  /**
   Tallies a land-use field given as a flat sequence of codes: every class gets
   cellArea times its number of cells, unknown codes are skipped, and the total
   is the sum of the ten class areas.
   */
  method Tally(values: seq<int>, cellArea: real) returns (rec: Record)
    ensures rec.areas.Keys == Classes
    ensures forall u :: IsLandUseCode(u) ==> rec.areas[u] == Times(cellArea, Count(values, u))
    ensures rec.total == Times(cellArea, CountIn(values, Mangrove, TerrestrialVegetationFlooded + 1))
  {
    var areas := Zeroed().areas;
    var i := 0;
    while i < |values|
      invariant 0 <= i <= |values|
      invariant areas.Keys == Classes
      invariant forall u :: u in Classes ==> areas[u] == Times(cellArea, Count(values[..i], u))
    {
      var v := values[i];
      assert values[..i + 1] == values[..i] + [v];
      TallyStep(values[..i], v, areas, cellArea);
      if v in areas {
        areas := areas[v := areas[v] + cellArea];
      }
      i := i + 1;
    }
    assert values[..|values|] == values;
    var total := 0.0;
    var u := Mangrove;
    while u <= TerrestrialVegetationFlooded
      invariant Mangrove <= u <= TerrestrialVegetationFlooded + 1
      invariant total == Times(cellArea, SumCounts(values, Mangrove, u))
    {
      assert u in Classes;
      ghost var n := SumCounts(values, Mangrove, u);
      ghost var m := Count(values, u);
      assert SumCounts(values, Mangrove, u + 1) == n + m;
      TimesAdd(cellArea, n, m);
      total := total + areas[u];
      u := u + 1;
    }
    assert total == Times(cellArea, SumCounts(values, Mangrove, TerrestrialVegetationFlooded + 1));
    CountsAddUp(values, Mangrove, TerrestrialVegetationFlooded + 1);
    rec := Record(areas, total);
  }
}
