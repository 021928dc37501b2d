/**
 The simulation driver: the model's parameters and state, its construction
 from three input grids, one simulated year (flood pass, mangrove pass,
 synchronisation, land-use tally, one result entry) and the run over all
 years.
 */
module Simulation {
  import opened Codes
  import opened Grid
  import opened Quantities
  import opened Accounting
  import opened Flood
  import opened Mangrove

  /** Cell area in hectares, tide height and sea-level rise rate in metres, and the number of years. */
  datatype Params = Params(cellArea: real, tideHeight: real, riseRate: real, finalTime: int)

  /** The parameter values a model gets when none are given. */
  const DefaultParams: Params := Params(0.09, 6.0, 0.5, 100)

  /**
   The result time series, one entry per simulated year: the year index,
   the terrestrial-vegetation area, the flooded-terrestrial-vegetation area
   and the total classified area.
   */
  datatype Series = Series(time: seq<int>, vegetation: seq<real>, vegetationFlooded: seq<real>, total: seq<real>)
  {
    predicate Valid() {
      |vegetation| == |time| && |vegetationFlooded| == |time| && |total| == |time|
    }

    /** The series with one more year appended, taken from the year's tally. */
    function Append(t: int, rec: Record): (s: Series)
      requires TerrestrialVegetation in rec.areas && TerrestrialVegetationFlooded in rec.areas
    {
      Series(time + [t], vegetation + [rec.areas[TerrestrialVegetation]],
             vegetationFlooded + [rec.areas[TerrestrialVegetationFlooded]], total + [rec.total])
    }
  }

  /** The model state between years: the two generations agree, since every year ends by synchronising. */
  datatype Model = Model(space: Space, params: Params, currentTime: int, record: Record, results: Series)
  {
    predicate Valid() {
      space.Valid() && space.past == space.current && record.areas.Keys == Classes && results.Valid()
    }
  }

  /** Every cell of g holds one of the ten recognised land-use codes. */
  predicate AllKnown(g: Generation)
    requires g.Valid()
  {
    forall i, j :: 0 <= i < g.rows && 0 <= j < g.cols ==> IsLandUseCode(g.landUse[i][j])
  }

  /**
   Builds a model from three grids: both generations equal the inputs, the
   year index is 0, every class area is 0 and the series are empty. Grids of
   different shapes are refused.
   */
  function NewModel(landUse: seq<seq<int>>, elevation: seq<seq<real>>, soil: seq<seq<int>>, params: Params)
    : (r: Result<Model>)
    ensures r.Success? <==> NewSpace(landUse, elevation, soil).Success?
    ensures r.Success? ==>
              && r.value.Valid()
              && r.value.space.current.landUse == landUse
              && r.value.space.current.elevation == elevation
              && r.value.space.current.soil == soil
              && r.value.params == params
              && r.value.currentTime == 0
              && r.value.results == Series([], [], [], [])
              && (forall u :: u in r.value.record.areas ==> r.value.record.areas[u] == 0.0)
  {
    match NewSpace(landUse, elevation, soil)
    case Failure(e) => Failure(e)
    case Success(space) => Success(Model(space, params, 0, Zeroed(), Series([], [], [], [])))
  }

  /** Number of years a run simulates: final_time, or none when it is not positive. */
  function Steps(params: Params): (n: nat)
    ensures params.finalTime > 0 ==> n == params.finalTime
    ensures params.finalTime <= 0 ==> n == 0
  {
    if params.finalTime > 0 then params.finalTime else 0
  }

  /**
   With the default parameters a run lasts 100 years, and year t has a
   tidal-influence zone of 6 + 0.5 t metres and an accretion of
   0.001693 + 0.4695 t metres.
   */
  lemma DefaultQuantities(t: nat)
    ensures Steps(DefaultParams) == 100
    ensures TidalZone(DefaultParams.tideHeight, DefaultParams.riseRate, t) == 6.0 + 0.5 * t as real
    ensures Accretion(DefaultParams.riseRate, t) == 0.001693 + 0.4695 * t as real
  {
    TidalZoneValue(DefaultParams.tideHeight, DefaultParams.riseRate, t);
    AccretionValue(DefaultParams.riseRate, t);
  }

  /** Area of land-use class u in g: the cell area once per cell of that class. */
  function ClassArea(g: Generation, cellArea: real, u: int): real {
    Times(cellArea, Count(Flatten(g.landUse), u))
  }

  /** Classified area of g: the cell area once per cell holding a recognised code. */
  function TotalArea(g: Generation, cellArea: real): real {
    Times(cellArea, CountIn(Flatten(g.landUse), Codes.Mangrove, TerrestrialVegetationFlooded + 1))
  }

  /** Area of the whole grid of g: the cell area once per cell. */
  function GridArea(g: Generation, cellArea: real): real {
    Times(cellArea, g.rows * g.cols)
  }

  /**
   g' is a possible outcome of year t started from the synchronised
   generation g: a flood pass whose past and current are both g, followed by
   a mangrove pass with year t's tidal zone and accretion.
   */
  ghost predicate YearOutcome(g: Generation, params: Params, t: nat, g': Generation) {
    && g.Valid()
    && exists flooded: Generation ::
      && flooded.SameShape(g)
      && FloodPassOutcome(g, g, params.riseRate, flooded)
      && MangrovePassOutcome(flooded, TidalZone(params.tideHeight, params.riseRate, t),
                             Accretion(params.riseRate, t), g')
  }

  /** Flooding keeps every recognised land-use code recognised. */
  lemma FloodKeepsCodes(past: Generation, cur: Generation, next: Generation, rate: real)
    requires cur.Valid() && past.SameShape(cur) && AllKnown(past) && AllKnown(cur)
    requires FloodPassOutcome(past, cur, rate, next)
    ensures AllKnown(next)
  {
    forall i, j | 0 <= i < next.rows && 0 <= j < next.cols
      ensures IsLandUseCode(next.landUse[i][j])
    {
      var q := Coord(i, j);
      assert cur.Holds(q) && past.Holds(q);
      FloodingKeepsCodes(LandUseAt(past, q));
    }
  }

  /** The mangrove pass keeps every recognised land-use code recognised. */
  lemma MangrovePassKeepsCodes(cur: Generation, next: Generation, zone: real, acc: real)
    requires cur.Valid() && AllKnown(cur)
    requires MangrovePassOutcome(cur, zone, acc, next)
    ensures AllKnown(next)
  {
    forall i, j | 0 <= i < next.rows && 0 <= j < next.cols
      ensures IsLandUseCode(next.landUse[i][j])
    {
      var q := Coord(i, j);
      assert cur.Holds(q);
      MangroveKeepsCodes(cur, next, q, zone, acc);
    }
  }

  /** With every code recognised, the classified area is the area of the whole grid. */
  lemma TotalCoversGrid(g: Generation, cellArea: real)
    requires g.Valid() && AllKnown(g)
    ensures TotalArea(g, cellArea) == GridArea(g, cellArea)
  {
    FlattenKnown(g.landUse);
    AllKnownCounted(Flatten(g.landUse));
    FlattenLength(g.landUse, g.rows, g.cols);
  }

  /**
   One simulated year t: the flood pass from the past generation into the
   current one, the mangrove pass over the result with year t's tidal zone
   and accretion, synchronisation, the tally of the new land use, and one
   result entry for year t. The ghost result flooded is the generation
   between the two passes.
   */
  method Year(m: Model, t: nat) returns (m': Model, ghost flooded: Generation)
    requires m.Valid()
    ensures m'.Valid()
    ensures m'.params == m.params && m'.currentTime == t
    ensures m'.space.current.SameShape(m.space.current) && flooded.SameShape(m.space.current)
    ensures FloodPassOutcome(m.space.past, m.space.current, m.params.riseRate, flooded)
    ensures MangrovePassOutcome(flooded, TidalZone(m.params.tideHeight, m.params.riseRate, t),
                                Accretion(m.params.riseRate, t), m'.space.current)
    ensures YearOutcome(m.space.current, m.params, t, m'.space.current)
    ensures forall u :: IsLandUseCode(u) ==> m'.record.areas[u] == ClassArea(m'.space.current, m.params.cellArea, u)
    ensures m'.record.total == TotalArea(m'.space.current, m.params.cellArea)
    ensures m'.results == m.results.Append(t, m'.record)
    ensures AllKnown(m.space.current) ==>
              AllKnown(m'.space.current)
              && m'.record.total == GridArea(m.space.current, m.params.cellArea)
  {
    var s := m.space;
    var zone := TidalZone(m.params.tideHeight, m.params.riseRate, t);
    var acc := Accretion(m.params.riseRate, t);
    var next := FloodPass(s.past, s.current, m.params.riseRate);
    var grown := MangrovePass(next, zone, acc);
    flooded := next;
    var space := Synchronize(Space(grown, s.past));
    var rec := Tally(Flatten(space.current.landUse), m.params.cellArea);
    m' := Model(space, m.params, t, rec, m.results.Append(t, rec));
    if AllKnown(s.current) {
      FloodKeepsCodes(s.past, s.current, next, m.params.riseRate);
      MangrovePassKeepsCodes(next, grown, zone, acc);
      TotalCoversGrid(grown, m.params.cellArea);
    }
  }

  /** Each generation of grids is a possible outcome of its year, started from the one before. */
  ghost predicate Chain(grids: seq<Generation>, params: Params) {
    forall k :: 1 <= k < |grids| ==> YearOutcome(grids[k - 1], params, k, grids[k])
  }

  /**
   The entries of results from index n on are the years of grids[1..]:
   the entry at n + k - 1 is year k, with the terrestrial-vegetation,
   flooded-vegetation and classified areas of grids[k].
   */
  ghost predicate Recorded(results: Series, n: nat, grids: seq<Generation>, cellArea: real) {
    && results.Valid()
    && n + |grids| - 1 <= |results.time|
    && (forall i :: n <= i < n + |grids| - 1 ==> results.time[i] == i - n + 1)
    && forall k :: 1 <= k < |grids| ==>
         && results.vegetation[n + k - 1] == ClassArea(grids[k], cellArea, TerrestrialVegetation)
         && results.vegetationFlooded[n + k - 1] == ClassArea(grids[k], cellArea, TerrestrialVegetationFlooded)
         && results.total[n + k - 1] == TotalArea(grids[k], cellArea)
  }

  lemma ChainExtend(grids: seq<Generation>, params: Params, g: Generation)
    requires |grids| > 0 && Chain(grids, params)
    requires YearOutcome(grids[|grids| - 1], params, |grids|, g)
    ensures Chain(grids + [g], params)
  {
    var grids' := grids + [g];
    forall k | 1 <= k < |grids'|
      ensures YearOutcome(grids'[k - 1], params, k, grids'[k])
    {
      if k < |grids| {
        assert YearOutcome(grids[k - 1], params, k, grids[k]);
        assert grids'[k - 1] == grids[k - 1] && grids'[k] == grids[k];
      } else {
        assert grids'[k - 1] == grids[|grids| - 1] && grids'[k] == g;
      }
    }
  }

  /** Appending the tally of g after the entries of grids records g as the next year. */
  lemma RecordedExtend(results: Series, n: nat, grids: seq<Generation>, cellArea: real, t: int, rec: Record, g: Generation)
    requires Recorded(results, n, grids, cellArea) && |grids| > 0
    requires |results.time| == n + |grids| - 1 && t == |grids|
    requires TerrestrialVegetation in rec.areas && TerrestrialVegetationFlooded in rec.areas
    requires rec.areas[TerrestrialVegetation] == ClassArea(g, cellArea, TerrestrialVegetation)
    requires rec.areas[TerrestrialVegetationFlooded] == ClassArea(g, cellArea, TerrestrialVegetationFlooded)
    requires rec.total == TotalArea(g, cellArea)
    ensures Recorded(results.Append(t, rec), n, grids + [g], cellArea)
  {
    var after, grids' := results.Append(t, rec), grids + [g];
    forall k | 1 <= k < |grids'|
      ensures && after.vegetation[n + k - 1] == ClassArea(grids'[k], cellArea, TerrestrialVegetation)
              && after.vegetationFlooded[n + k - 1] == ClassArea(grids'[k], cellArea, TerrestrialVegetationFlooded)
              && after.total[n + k - 1] == TotalArea(grids'[k], cellArea)
    {
      var i := n + k - 1;
      if k < |grids| {
        assert grids'[k] == grids[k];
        assert after.vegetation[i] == results.vegetation[i];
        assert after.vegetationFlooded[i] == results.vegetationFlooded[i] && after.total[i] == results.total[i];
      } else {
        assert grids'[k] == g && i == |results.time|;
      }
    }
    assert after.time == results.time + [t];
  }

  /** Appending keeps the first n entries of every series. */
  lemma AppendKeepsPrefix(results: Series, n: nat, t: int, rec: Record)
    requires results.Valid() && n <= |results.time|
    requires TerrestrialVegetation in rec.areas && TerrestrialVegetationFlooded in rec.areas
    ensures var after := results.Append(t, rec);
            && after.time[..n] == results.time[..n]
            && after.vegetation[..n] == results.vegetation[..n]
            && after.vegetationFlooded[..n] == results.vegetationFlooded[..n]
            && after.total[..n] == results.total[..n]
  {
    var after := results.Append(t, rec);
    assert after.time[..n] == results.time[..n];
    assert after.vegetation[..n] == results.vegetation[..n];
    assert after.vegetationFlooded[..n] == results.vegetationFlooded[..n];
    assert after.total[..n] == results.total[..n];
  }

  /**
   cur is the model after the first t years of a run from m, and grids the
   generations it went through: grids[0] is m's generation and grids[t]
   cur's; each is an outcome of its year from the one before; once a year
   has run, cur's record is the tally of its generation; the series
   keep m's entries and add one per year, each the tally of its year's
   generation; with every code of m recognised, they stay recognised and
   every added total is the area of the whole grid.
   */
  ghost predicate Progress(m: Model, cur: Model, grids: seq<Generation>, t: nat) {
    var n := |m.results.time|;
    && m.Valid() && cur.Valid() && cur.params == m.params
    && t <= Steps(m.params)
    && cur.space.current.SameShape(m.space.current)
    && (t == 0 ==> cur == m)
    && (t > 0 ==> cur.currentTime == t)
    && (t > 0 ==> && (forall u :: IsLandUseCode(u) ==>
                        cur.record.areas[u] == ClassArea(cur.space.current, m.params.cellArea, u))
                  && cur.record.total == TotalArea(cur.space.current, m.params.cellArea))
    && |grids| == t + 1 && grids[0] == m.space.current && grids[t] == cur.space.current
    && Chain(grids, m.params)
    && |cur.results.time| == n + t
    && cur.results.time[..n] == m.results.time
    && cur.results.vegetation[..n] == m.results.vegetation
    && cur.results.vegetationFlooded[..n] == m.results.vegetationFlooded
    && cur.results.total[..n] == m.results.total
    && Recorded(cur.results, n, grids, m.params.cellArea)
    && (AllKnown(m.space.current) ==>
          && AllKnown(cur.space.current)
          && forall k :: n <= k < |cur.results.total| ==>
               cur.results.total[k] == GridArea(m.space.current, m.params.cellArea))
  }

  /** A model that records year t + 1 as an outcome of cur's year extends the progress by that year. */
  lemma ProgressExtend(m: Model, cur: Model, grids: seq<Generation>, t: nat, next: Model)
    requires Progress(m, cur, grids, t) && t < Steps(m.params)
    requires next.Valid() && next.params == m.params && next.currentTime == t + 1
    requires next.space.current.SameShape(cur.space.current)
    requires YearOutcome(cur.space.current, m.params, t + 1, next.space.current)
    requires forall u :: IsLandUseCode(u) ==> next.record.areas[u] == ClassArea(next.space.current, m.params.cellArea, u)
    requires next.record.total == TotalArea(next.space.current, m.params.cellArea)
    requires next.results == cur.results.Append(t + 1, next.record)
    requires AllKnown(cur.space.current) ==>
               AllKnown(next.space.current)
               && next.record.total == GridArea(cur.space.current, m.params.cellArea)
    ensures Progress(m, next, grids + [next.space.current], t + 1)
  {
    var n, cellArea := |m.results.time|, m.params.cellArea;
    ChainExtend(grids, m.params, next.space.current);
    RecordedExtend(cur.results, n, grids, cellArea, t + 1, next.record, next.space.current);
    AppendKeepsPrefix(cur.results, n, t + 1, next.record);
  }

  /** One iteration of the run: year t + 1 extends the progress by one year. */
  method Advance(m: Model, cur: Model, ghost grids: seq<Generation>, t: nat) returns (next: Model, ghost grids': seq<Generation>)
    requires Progress(m, cur, grids, t) && t < Steps(m.params)
    ensures Progress(m, next, grids', t + 1)
  {
    ghost var flooded;
    next, flooded := Year(cur, t + 1);
    ProgressExtend(m, cur, grids, t, next);
    grids' := grids + [next.space.current];
  }

  /**
   Runs years 1 to finalTime, appending one entry per year to the existing
   series; with finalTime at most 0 the model is returned unchanged. The
   ghost result grids lists the generation before the first year and after
   each year: grids[k] is an outcome of year k from grids[k - 1], and the
   k-th appended entry is the tally of grids[k]. After at least one year
   the record holds the class areas and total of the final generation.
   */
  method Run(m: Model) returns (m': Model, ghost grids: seq<Generation>)
    requires m.Valid()
    ensures m'.Valid()
    ensures m'.params == m.params
    ensures m'.space.current.SameShape(m.space.current)
    ensures m.params.finalTime <= 0 ==> m' == m
    ensures m.params.finalTime > 0 ==> m'.currentTime == m.params.finalTime
    ensures m.params.finalTime > 0 ==>
              && (forall u :: IsLandUseCode(u) ==>
                    m'.record.areas[u] == ClassArea(m'.space.current, m.params.cellArea, u))
              && m'.record.total == TotalArea(m'.space.current, m.params.cellArea)
    ensures |grids| == Steps(m.params) + 1
    ensures grids[0] == m.space.current && grids[|grids| - 1] == m'.space.current
    ensures Chain(grids, m.params)
    ensures |m'.results.time| == |m.results.time| + Steps(m.params)
    ensures var n := |m.results.time|;
            && m'.results.time[..n] == m.results.time
            && m'.results.vegetation[..n] == m.results.vegetation
            && m'.results.vegetationFlooded[..n] == m.results.vegetationFlooded
            && m'.results.total[..n] == m.results.total
    ensures Recorded(m'.results, |m.results.time|, grids, m.params.cellArea)
    ensures AllKnown(m.space.current) ==>
              && AllKnown(m'.space.current)
              && forall k :: |m.results.time| <= k < |m'.results.total| ==>
                   m'.results.total[k] == GridArea(m.space.current, m.params.cellArea)
  {
    m' := m;
    grids := [m.space.current];
    var t := 0;
    assert Recorded(m.results, |m.results.time|, grids, m.params.cellArea);
    while t < m.params.finalTime
      invariant Progress(m, m', grids, t)
    {
      m', grids := Advance(m, m', grids, t);
      t := t + 1;
    }
  }
}
