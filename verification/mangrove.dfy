/**
 The mangrove migration and accretion rule. It reads and writes the current
 generation. A cell whose soil is mangrove soil or a fluvial channel stages
 its colonisable neighbours inside the tidal influence zone (their soil
 becomes migrated-mangrove soil). A mangrove cell turns its colonisable
 neighbours inside the zone whose soil is already mangrove or
 migrated-mangrove soil into migrated mangrove. A cell that passes the
 accretion guard gains the year's accretion on its elevation. Every
 neighbour value a call tests is read before that call writes anything.
 */
module Mangrove {
  import opened Codes
  import opened Grid
  import opened Quantities

  // ---------------------------------------------------------------------------
  // Year-dependent quantities

  /** Height below which a neighbour counts as tidally influenced in year t: tide height plus t years of rise. */
  function TidalZone(tideHeight: real, rate: real, t: nat): real {
    tideHeight + Times(rate, t)
  }

  /**
   Elevation gain in metres for year t: the accretion rate in millimetres,
   1.693 + 0.939 * (cumulative rise in millimetres), divided by 1000.
   */
  function Accretion(rate: real, t: nat): real {
    (1.693 + 0.939 * (Times(rate, t) * 1000.0)) / 1000.0
  }

  /** The zone is the tide height plus t times the rate. */
  lemma TidalZoneValue(tideHeight: real, rate: real, t: nat)
    ensures TidalZone(tideHeight, rate, t) == tideHeight + rate * t as real
  {
    TimesIsProduct(rate, t);
  }

  /** In metres the accretion is 0.001693 plus 0.939 times the cumulative rise. */
  lemma AccretionValue(rate: real, t: nat)
    ensures Accretion(rate, t) == 0.001693 + 0.939 * (rate * t as real)
  {
    TimesIsProduct(rate, t);
  }

  /**
   With a non-negative rate both quantities grow with the year, and the
   accretion is never below its base of 0.001693 m.
   */
  lemma QuantitiesGrow(tideHeight: real, rate: real, t: nat, t': nat)
    requires rate >= 0.0 && t <= t'
    ensures TidalZone(tideHeight, rate, t) <= TidalZone(tideHeight, rate, t')
    ensures 0.001693 <= Accretion(rate, t) <= Accretion(rate, t')
  {
    TimesAdd(rate, t, t' - t);
    TimesNonNegative(rate, t' - t);
    TimesNonNegative(rate, t);
  }

  // ---------------------------------------------------------------------------
  // Conditions on captured values

  /** Terrestrial vegetation or bare soil: the land uses mangrove can colonise. */
  predicate Colonisable(u: int) {
    u == TerrestrialVegetation || u == BareSoil
  }

  /** Soil from which a cell stages its neighbours: mangrove soil or a fluvial channel. */
  predicate Seeds(s: int) {
    s == MangroveSoil || s == FluvialChannel
  }

  /** A neighbour with these values gets migrated-mangrove soil from a seeding cell. */
  predicate CanStage(u: int, s: int, e: real, zone: real) {
    Colonisable(u) && s != MangroveSoil && e <= zone
  }

  /** A neighbour with these values becomes migrated mangrove next to a mangrove cell. */
  predicate CanMigrate(u: int, s: int, e: real, zone: real) {
    Colonisable(u) && e <= zone && (s == MangroveMigratedSoil || s == MangroveSoil)
  }

  /**
   The accretion guard as written: the soil class is compared with the
   land-use codes Mangrove (1) and MangroveMigrated (8), and the land use
   must not be sea or flooded.
   */
  predicate Accretes(u: int, s: int) {
    (s == Mangrove || s == MangroveMigrated) && !IsSeaOrFlooded(u)
  }

  predicate StageTarget(g: Generation, q: Coord, zone: real)
    requires g.Valid() && g.Holds(q)
  {
    CanStage(LandUseAt(g, q), SoilAt(g, q), ElevationAt(g, q), zone)
  }

  predicate MigrateTarget(g: Generation, q: Coord, zone: real)
    requires g.Valid() && g.Holds(q)
  {
    CanMigrate(LandUseAt(g, q), SoilAt(g, q), ElevationAt(g, q), zone)
  }

  predicate AccretionSite(g: Generation, q: Coord)
    requires g.Valid() && g.Holds(q)
  {
    Accretes(LandUseAt(g, q), SoilAt(g, q))
  }

  // ---------------------------------------------------------------------------
  // One call of the rule

  /**
   Visits ns in order; every listed cell whose values in the captured
   generation e meet the staging condition gets migrated-mangrove soil in w.
   */
  function Stage(e: Generation, w: Generation, zone: real, ns: seq<Coord>): (w': Generation)
    requires e.SameShape(w)
    ensures w'.SameShape(w) && w'.landUse == w.landUse && w'.elevation == w.elevation
    decreases |ns|
  {
    if ns == [] then w
    else
      var n := ns[0];
      var w1 := if e.Holds(n) && StageTarget(e, n, zone) then SetSoil(w, n, MangroveMigratedSoil) else w;
      Stage(e, w1, zone, ns[1..])
  }

  /**
   Visits ns in order; every listed cell whose values in the captured
   generation e meet the migration condition becomes migrated mangrove in w.
   */
  function Migrate(e: Generation, w: Generation, zone: real, ns: seq<Coord>): (w': Generation)
    requires e.SameShape(w)
    ensures w'.SameShape(w) && w'.soil == w.soil && w'.elevation == w.elevation
    decreases |ns|
  {
    if ns == [] then w
    else
      var n := ns[0];
      var w1 := if e.Holds(n) && MigrateTarget(e, n, zone) then SetLandUse(w, n, MangroveMigrated) else w;
      Migrate(e, w1, zone, ns[1..])
  }

  /** Exactly the listed cells that were staging targets in e carry migrated-mangrove soil afterwards. */
  lemma {:induction false} StageEffect(e: Generation, w: Generation, zone: real, ns: seq<Coord>)
    requires e.SameShape(w)
    ensures forall q :: w.Holds(q) ==>
              SoilAt(Stage(e, w, zone, ns), q)
              == if q in ns && StageTarget(e, q, zone) then MangroveMigratedSoil else SoilAt(w, q)
    decreases |ns|
  {
    if ns != [] {
      var n := ns[0];
      var w1 := if e.Holds(n) && StageTarget(e, n, zone) then SetSoil(w, n, MangroveMigratedSoil) else w;
      StageEffect(e, w1, zone, ns[1..]);
      assert forall q :: q in ns <==> q == n || q in ns[1..];
    }
  }

  /** Exactly the listed cells that were migration targets in e are migrated mangrove afterwards. */
  lemma {:induction false} MigrateEffect(e: Generation, w: Generation, zone: real, ns: seq<Coord>)
    requires e.SameShape(w)
    ensures forall q :: w.Holds(q) ==>
              LandUseAt(Migrate(e, w, zone, ns), q)
              == if q in ns && MigrateTarget(e, q, zone) then MangroveMigrated else LandUseAt(w, q)
    decreases |ns|
  {
    if ns != [] {
      var n := ns[0];
      var w1 := if e.Holds(n) && MigrateTarget(e, n, zone) then SetLandUse(w, n, MangroveMigrated) else w;
      MigrateEffect(e, w1, zone, ns[1..]);
      assert forall q :: q in ns <==> q == n || q in ns[1..];
    }
  }

  /**
   The three steps of one call at p over the neighbour list ns: staging,
   then migration, then accretion. Every condition reads g, the generation
   as it was when the call began.
   */
  function Dynamics(g: Generation, p: Coord, zone: real, acc: real, ns: seq<Coord>): (next: Generation)
    requires g.Valid() && g.Holds(p)
    ensures next.SameShape(g)
    ensures !Seeds(SoilAt(g, p)) && LandUseAt(g, p) != Mangrove && !AccretionSite(g, p) ==> next == g
  {
    var g1 := if Seeds(SoilAt(g, p)) then Stage(g, g, zone, ns) else g;
    var g2 := if LandUseAt(g, p) == Mangrove then Migrate(g, g1, zone, ns) else g1;
    if AccretionSite(g, p) then SetElevation(g2, p, ElevationAt(g, p) + acc) else g2
  }

  lemma DynamicsSoil(g: Generation, p: Coord, zone: real, acc: real, ns: seq<Coord>)
    requires g.Valid() && g.Holds(p)
    ensures forall q :: g.Holds(q) ==>
              SoilAt(Dynamics(g, p, zone, acc, ns), q)
              == if Seeds(SoilAt(g, p)) && q in ns && StageTarget(g, q, zone) then MangroveMigratedSoil
                 else SoilAt(g, q)
  {
    if Seeds(SoilAt(g, p)) {
      StageEffect(g, g, zone, ns);
    }
  }

  lemma DynamicsLandUse(g: Generation, p: Coord, zone: real, acc: real, ns: seq<Coord>)
    requires g.Valid() && g.Holds(p)
    ensures forall q :: g.Holds(q) ==>
              LandUseAt(Dynamics(g, p, zone, acc, ns), q)
              == if LandUseAt(g, p) == Mangrove && q in ns && MigrateTarget(g, q, zone) then MangroveMigrated
                 else LandUseAt(g, q)
  {
    var g1 := if Seeds(SoilAt(g, p)) then Stage(g, g, zone, ns) else g;
    if LandUseAt(g, p) == Mangrove {
      MigrateEffect(g, g1, zone, ns);
    }
  }

  lemma DynamicsElevation(g: Generation, p: Coord, zone: real, acc: real, ns: seq<Coord>)
    requires g.Valid() && g.Holds(p)
    ensures forall q :: g.Holds(q) ==>
              ElevationAt(Dynamics(g, p, zone, acc, ns), q)
              == if q == p && AccretionSite(g, p) then ElevationAt(g, p) + acc else ElevationAt(g, q)
  {
  }

  /** The rule at cell p with its Moore neighbours, for tidal zone `zone` and accretion `acc`. */
  function MangroveCell(g: Generation, p: Coord, zone: real, acc: real): (next: Generation)
    requires g.Valid() && g.Holds(p)
    ensures next.SameShape(g)
    ensures !Seeds(SoilAt(g, p)) && LandUseAt(g, p) != Mangrove && !AccretionSite(g, p) ==> next == g
  {
    Dynamics(g, p, zone, acc, Neighbors(g.rows, g.cols, p, false))
  }

  /** p's call stages q: p seeds and q is a neighbour whose values at the start of the call allow staging. */
  predicate StagedBy(g: Generation, p: Coord, q: Coord, zone: real)
    requires g.Valid() && g.Holds(p)
  {
    g.Holds(q) && Adjacent(p, q) && q != p && Seeds(SoilAt(g, p)) && StageTarget(g, q, zone)
  }

  /** p's call migrates q: p is mangrove and q is a neighbour whose values at the start of the call allow migration. */
  predicate MigratedBy(g: Generation, p: Coord, q: Coord, zone: real)
    requires g.Valid() && g.Holds(p)
  {
    g.Holds(q) && Adjacent(p, q) && q != p && LandUseAt(g, p) == Mangrove && MigrateTarget(g, q, zone)
  }

  /** The call at p writes migrated-mangrove soil on the cells it stages and no other soil. */
  lemma MangroveCellSoil(g: Generation, p: Coord, zone: real, acc: real)
    requires g.Valid() && g.Holds(p)
    ensures forall q :: g.Holds(q) ==>
              SoilAt(MangroveCell(g, p, zone, acc), q)
              == if StagedBy(g, p, q, zone) then MangroveMigratedSoil else SoilAt(g, q)
  {
    DynamicsSoil(g, p, zone, acc, Neighbors(g.rows, g.cols, p, false));
  }

  /** The call at p writes migrated mangrove on the cells it migrates and no other land use. */
  lemma MangroveCellLandUse(g: Generation, p: Coord, zone: real, acc: real)
    requires g.Valid() && g.Holds(p)
    ensures forall q :: g.Holds(q) ==>
              LandUseAt(MangroveCell(g, p, zone, acc), q)
              == if MigratedBy(g, p, q, zone) then MangroveMigrated else LandUseAt(g, q)
  {
    DynamicsLandUse(g, p, zone, acc, Neighbors(g.rows, g.cols, p, false));
  }

  /** The call at p raises p by acc when p passes the accretion guard, and no other elevation changes. */
  lemma MangroveCellElevation(g: Generation, p: Coord, zone: real, acc: real)
    requires g.Valid() && g.Holds(p)
    ensures forall q :: g.Holds(q) ==>
              ElevationAt(MangroveCell(g, p, zone, acc), q)
              == if q == p && AccretionSite(g, p) then ElevationAt(g, p) + acc else ElevationAt(g, q)
  {
    DynamicsElevation(g, p, zone, acc, Neighbors(g.rows, g.cols, p, false));
  }

  /**
   Migration in a call tests the soil captured before that call's staging: a
   neighbour whose soil was neither mangrove nor migrated-mangrove soil keeps
   its land use, even when the same call stages it.
   */
  lemma MigrationSeesCapturedSoil(g: Generation, p: Coord, q: Coord, zone: real, acc: real)
    requires g.Valid() && g.Holds(p) && g.Holds(q)
    requires SoilAt(g, q) != MangroveSoil && SoilAt(g, q) != MangroveMigratedSoil
    ensures LandUseAt(MangroveCell(g, p, zone, acc), q) == LandUseAt(g, q)
    ensures StagedBy(g, p, q, zone) ==> SoilAt(MangroveCell(g, p, zone, acc), q) == MangroveMigratedSoil
  {
    MangroveCellSoil(g, p, zone, acc);
    MangroveCellLandUse(g, p, zone, acc);
  }

  /**
   A later call sees an earlier call's staging: once p1 has staged q, a
   mangrove cell p2 next to q migrates it.
   */
  lemma LaterCallSeesStaging(g: Generation, p1: Coord, p2: Coord, q: Coord, zone: real, acc: real)
    requires g.Valid() && g.Holds(p1) && g.Holds(p2)
    requires StagedBy(g, p1, q, zone)
    requires LandUseAt(g, p2) == Mangrove && Adjacent(p2, q) && q != p2
    ensures LandUseAt(MangroveCell(MangroveCell(g, p1, zone, acc), p2, zone, acc), q) == MangroveMigrated
  {
    var g1 := MangroveCell(g, p1, zone, acc);
    MangroveCellSoil(g, p1, zone, acc);
    MangroveCellLandUse(g, p1, zone, acc);
    MangroveCellElevation(g, p1, zone, acc);
    MangroveCellLandUse(g1, p2, zone, acc);
    if LandUseAt(g1, q) != MangroveMigrated {
      assert MigratedBy(g1, p2, q, zone);
    }
  }

  // ---------------------------------------------------------------------------
  // The whole pass, in row-major order

  /** Some other cell of q's Moore neighbourhood seeds in cur. */
  ghost predicate HasSeedNeighbour(cur: Generation, q: Coord)
    requires cur.Valid()
  {
    exists p :: cur.Holds(p) && Adjacent(p, q) && p != q && Seeds(SoilAt(cur, p))
  }

  /** Some other cell of q's Moore neighbourhood is mangrove in cur. */
  ghost predicate HasMangroveNeighbour(cur: Generation, q: Coord)
    requires cur.Valid()
  {
    exists p :: cur.Holds(p) && Adjacent(p, q) && p != q && LandUseAt(cur, p) == Mangrove
  }

  /** Some other cell of q's Moore neighbourhood has mangrove soil in cur. */
  ghost predicate HasMangroveSoilNeighbour(cur: Generation, q: Coord)
    requires cur.Valid()
  {
    exists p :: cur.Holds(p) && Adjacent(p, q) && p != q && SoilAt(cur, p) == MangroveSoil
  }

  /** As HasMangroveNeighbour, among the cells visited before b. */
  ghost predicate MangroveNeighbourBefore(cur: Generation, q: Coord, b: Coord)
    requires cur.Valid()
  {
    exists p :: cur.Holds(p) && Precedes(p, b) && Adjacent(p, q) && p != q && LandUseAt(cur, p) == Mangrove
  }

  /** p seeds in cur and still has its soil of cur in g. */
  predicate KeptSeed(cur: Generation, g: Generation, p: Coord)
    requires cur.SameShape(g) && cur.Holds(p)
  {
    Seeds(SoilAt(cur, p)) && SoilAt(g, p) == SoilAt(cur, p)
  }

  /** Some other cell of q's Moore neighbourhood seeds in cur and keeps that soil in g. */
  ghost predicate HasKeptSeedNeighbour(cur: Generation, g: Generation, q: Coord)
    requires cur.SameShape(g)
  {
    exists p :: cur.Holds(p) && Adjacent(p, q) && p != q && KeptSeed(cur, g, p)
  }

  /**
   q lay within the tidal zone when a neighbour's call read it: its elevation
   then was its elevation in cur, or that plus acc if q had already accreted.
   */
  predicate InZone(cur: Generation, q: Coord, zone: real, acc: real)
    requires cur.Valid() && cur.Holds(q)
  {
    ElevationAt(cur, q) <= zone || ElevationAt(cur, q) + acc <= zone
  }

  /**
   q's soil in g is its soil in cur, or migrated-mangrove soil on a cell that
   was colonisable, had no mangrove soil, lay within the zone, and lies next
   to a seeding cell.
   */
  ghost predicate SoilChangeSound(cur: Generation, g: Generation, q: Coord, zone: real, acc: real)
    requires cur.SameShape(g) && cur.Holds(q)
  {
    || SoilAt(g, q) == SoilAt(cur, q)
    || (&& SoilAt(g, q) == MangroveMigratedSoil
        && Colonisable(LandUseAt(cur, q)) && SoilAt(cur, q) != MangroveSoil
        && InZone(cur, q, zone, acc)
        && HasSeedNeighbour(cur, q))
  }

  /**
   q's land use in g is its land use in cur, or migrated mangrove on a cell
   that was colonisable, lay within the zone, is next to a mangrove cell, and
   whose soil in g is mangrove or migrated-mangrove soil.
   */
  ghost predicate UseChangeSound(cur: Generation, g: Generation, q: Coord, zone: real, acc: real)
    requires cur.SameShape(g) && cur.Holds(q)
  {
    || LandUseAt(g, q) == LandUseAt(cur, q)
    || (&& LandUseAt(g, q) == MangroveMigrated
        && Colonisable(LandUseAt(cur, q))
        && InZone(cur, q, zone, acc)
        && (SoilAt(g, q) == MangroveSoil || SoilAt(g, q) == MangroveMigratedSoil)
        && HasMangroveNeighbour(cur, q))
  }

  /** q's elevation in g is its elevation in cur, or that plus acc on an accretion site visited before b. */
  ghost predicate ElevationChangeSound(cur: Generation, g: Generation, q: Coord, b: Coord, acc: real)
    requires cur.SameShape(g) && cur.Holds(q)
  {
    || ElevationAt(g, q) == ElevationAt(cur, q)
    || (Precedes(q, b) && AccretionSite(cur, q) && ElevationAt(g, q) == ElevationAt(cur, q) + acc)
  }

  /** g is what the pass makes of cur once it has visited every cell before b. */
  ghost predicate MangroveBefore(cur: Generation, g: Generation, b: Coord, zone: real, acc: real)
    requires cur.Valid()
  {
    && g.SameShape(cur)
    && (forall q :: cur.Holds(q) ==> SoilChangeSound(cur, g, q, zone, acc))
    && (forall q :: cur.Holds(q) ==> UseChangeSound(cur, g, q, zone, acc))
    && (forall q :: cur.Holds(q) ==> ElevationChangeSound(cur, g, q, b, acc))
    && (forall q :: cur.Holds(q) && Precedes(q, b) && AccretionSite(cur, q) && SoilAt(g, q) == SoilAt(cur, q)
                    ==> ElevationAt(g, q) == ElevationAt(cur, q) + acc)
    && (forall q :: cur.Holds(q) && MigrateTarget(cur, q, zone) && MangroveNeighbourBefore(cur, q, b)
                    ==> LandUseAt(g, q) == MangroveMigrated)
    && (forall p, q :: cur.Holds(p) && cur.Holds(q) && Precedes(p, b) && Adjacent(p, q) && p != q
                       && KeptSeed(cur, g, p) && StageTarget(cur, q, zone) && !AccretionSite(cur, q)
                       ==> SoilAt(g, q) == MangroveMigratedSoil)
  }

  /** Before any cell is visited nothing has changed. */
  lemma MangroveStart(cur: Generation, zone: real, acc: real)
    requires cur.Valid()
    ensures MangroveBefore(cur, cur, Coord(0, 0), zone, acc)
  {
  }

  /** Cell (i, j) is the one cell that precedes (i, j + 1) but not (i, j). */
  lemma NeighbourVisitExtends(cur: Generation, q: Coord, i: nat, j: nat)
    requires cur.Valid() && i < cur.rows && j < cur.cols
    ensures MangroveNeighbourBefore(cur, q, Coord(i, j + 1))
            <==> MangroveNeighbourBefore(cur, q, Coord(i, j))
                 || (Adjacent(Coord(i, j), q) && Coord(i, j) != q && LandUseAt(cur, Coord(i, j)) == Mangrove)
  {
  }

  /** Visiting b changes soil only by staging, which keeps the soil history sound. */
  lemma SoilStep(cur: Generation, g: Generation, zone: real, acc: real, i: nat, j: nat)
    requires cur.Valid() && i < cur.rows && j < cur.cols
    requires MangroveBefore(cur, g, Coord(i, j), zone, acc)
    ensures forall q :: cur.Holds(q) ==> SoilChangeSound(cur, MangroveCell(g, Coord(i, j), zone, acc), q, zone, acc)
  {
    var b := Coord(i, j);
    var next := MangroveCell(g, b, zone, acc);
    MangroveCellSoil(g, b, zone, acc);
    forall q | cur.Holds(q)
      ensures SoilChangeSound(cur, next, q, zone, acc)
    {
      assert SoilChangeSound(cur, g, q, zone, acc) && UseChangeSound(cur, g, q, zone, acc);
      if StagedBy(g, b, q, zone) {
        assert ElevationChangeSound(cur, g, q, b, acc);
        assert SoilChangeSound(cur, g, b, zone, acc);
        assert Seeds(SoilAt(cur, b));
        assert HasSeedNeighbour(cur, q);
      }
    }
  }

  /** Visiting b changes land use only by migration, which keeps the land-use history sound. */
  lemma UseStep(cur: Generation, g: Generation, zone: real, acc: real, i: nat, j: nat)
    requires cur.Valid() && i < cur.rows && j < cur.cols
    requires MangroveBefore(cur, g, Coord(i, j), zone, acc)
    ensures forall q :: cur.Holds(q) ==> UseChangeSound(cur, MangroveCell(g, Coord(i, j), zone, acc), q, zone, acc)
  {
    var b := Coord(i, j);
    var next := MangroveCell(g, b, zone, acc);
    MangroveCellSoil(g, b, zone, acc);
    MangroveCellLandUse(g, b, zone, acc);
    forall q | cur.Holds(q)
      ensures UseChangeSound(cur, next, q, zone, acc)
    {
      assert UseChangeSound(cur, g, q, zone, acc);
      if MigratedBy(g, b, q, zone) {
        assert ElevationChangeSound(cur, g, q, b, acc);
        assert UseChangeSound(cur, g, b, zone, acc);
        assert LandUseAt(cur, b) == Mangrove;
        assert HasMangroveNeighbour(cur, q);
      }
    }
  }

  /** Visiting b raises at most b itself, and only when b is an accretion site of cur. */
  lemma ElevationStep(cur: Generation, g: Generation, zone: real, acc: real, i: nat, j: nat)
    requires cur.Valid() && i < cur.rows && j < cur.cols
    requires MangroveBefore(cur, g, Coord(i, j), zone, acc)
    ensures forall q :: cur.Holds(q) ==>
              ElevationChangeSound(cur, MangroveCell(g, Coord(i, j), zone, acc), q, Coord(i, j + 1), acc)
  {
  }

  /** An accretion site whose soil is still unchanged has been raised once it is visited. */
  lemma AccretionStep(cur: Generation, g: Generation, zone: real, acc: real, i: nat, j: nat)
    requires cur.Valid() && i < cur.rows && j < cur.cols
    requires MangroveBefore(cur, g, Coord(i, j), zone, acc)
    ensures forall q :: cur.Holds(q) && Precedes(q, Coord(i, j + 1)) && AccretionSite(cur, q)
                        && SoilAt(MangroveCell(g, Coord(i, j), zone, acc), q) == SoilAt(cur, q)
                        ==> ElevationAt(MangroveCell(g, Coord(i, j), zone, acc), q) == ElevationAt(cur, q) + acc
  {
    var b, b' := Coord(i, j), Coord(i, j + 1);
    var next := MangroveCell(g, b, zone, acc);
    MangroveCellSoil(g, b, zone, acc);
    MangroveCellElevation(g, b, zone, acc);
    forall q | cur.Holds(q) && Precedes(q, b') && AccretionSite(cur, q) && SoilAt(next, q) == SoilAt(cur, q)
      ensures ElevationAt(next, q) == ElevationAt(cur, q) + acc
    {
      assert SoilChangeSound(cur, g, q, zone, acc) && UseChangeSound(cur, g, q, zone, acc) && ElevationChangeSound(cur, g, q, b, acc);
      assert SoilAt(g, q) == SoilAt(cur, q);
      if q == b {
        assert AccretionSite(g, b);
      } else {
        assert Precedes(q, b);
      }
    }
  }

  /** A mangrove cell, once visited, has migrated every neighbour that was a migration target in cur. */
  lemma MigrationStep(cur: Generation, g: Generation, zone: real, acc: real, i: nat, j: nat)
    requires cur.Valid() && i < cur.rows && j < cur.cols
    requires MangroveBefore(cur, g, Coord(i, j), zone, acc)
    ensures forall q :: cur.Holds(q) && MigrateTarget(cur, q, zone) && MangroveNeighbourBefore(cur, q, Coord(i, j + 1))
                        ==> LandUseAt(MangroveCell(g, Coord(i, j), zone, acc), q) == MangroveMigrated
  {
    var b := Coord(i, j);
    var next := MangroveCell(g, b, zone, acc);
    MangroveCellLandUse(g, b, zone, acc);
    assert UseChangeSound(cur, g, b, zone, acc);
    forall q | cur.Holds(q) && MigrateTarget(cur, q, zone) && MangroveNeighbourBefore(cur, q, Coord(i, j + 1))
      ensures LandUseAt(next, q) == MangroveMigrated
    {
      NeighbourVisitExtends(cur, q, i, j);
      assert SoilChangeSound(cur, g, q, zone, acc) && UseChangeSound(cur, g, q, zone, acc) && ElevationChangeSound(cur, g, q, b, acc);
      if !MangroveNeighbourBefore(cur, q, b) && LandUseAt(g, q) != MangroveMigrated {
        assert MigratedBy(g, b, q, zone);
      }
    }
  }

  /**
   A seeding cell that still has its soil when visited has staged every
   neighbour that was a staging target in cur and is not an accretion site.
   */
  lemma StagingStep(cur: Generation, g: Generation, zone: real, acc: real, i: nat, j: nat)
    requires cur.Valid() && i < cur.rows && j < cur.cols
    requires MangroveBefore(cur, g, Coord(i, j), zone, acc)
    ensures var next := MangroveCell(g, Coord(i, j), zone, acc);
            forall p, q :: cur.Holds(p) && cur.Holds(q) && Precedes(p, Coord(i, j + 1)) && Adjacent(p, q) && p != q
                           && KeptSeed(cur, next, p) && StageTarget(cur, q, zone) && !AccretionSite(cur, q)
                           ==> SoilAt(next, q) == MangroveMigratedSoil
  {
    var b := Coord(i, j);
    var next := MangroveCell(g, b, zone, acc);
    MangroveCellSoil(g, b, zone, acc);
    MangroveCellLandUse(g, b, zone, acc);
    forall p, q | cur.Holds(p) && cur.Holds(q) && Precedes(p, Coord(i, j + 1)) && Adjacent(p, q) && p != q
                  && KeptSeed(cur, next, p) && StageTarget(cur, q, zone) && !AccretionSite(cur, q)
      ensures SoilAt(next, q) == MangroveMigratedSoil
    {
      assert SoilChangeSound(cur, g, q, zone, acc) && UseChangeSound(cur, g, q, zone, acc) && ElevationChangeSound(cur, g, q, b, acc);
      assert SoilAt(g, p) == SoilAt(cur, p);
      if p == b && SoilAt(g, q) != MangroveMigratedSoil {
        assert StagedBy(g, b, q, zone);
      }
    }
  }

  /** Visiting b extends the visited prefix by b. */
  lemma MangroveStep(cur: Generation, g: Generation, zone: real, acc: real, i: nat, j: nat)
    requires cur.Valid() && i < cur.rows && j < cur.cols
    requires MangroveBefore(cur, g, Coord(i, j), zone, acc)
    ensures MangroveBefore(cur, MangroveCell(g, Coord(i, j), zone, acc), Coord(i, j + 1), zone, acc)
  {
    SoilStep(cur, g, zone, acc, i, j);
    UseStep(cur, g, zone, acc, i, j);
    ElevationStep(cur, g, zone, acc, i, j);
    AccretionStep(cur, g, zone, acc, i, j);
    MigrationStep(cur, g, zone, acc, i, j);
    StagingStep(cur, g, zone, acc, i, j);
  }

  /** Having visited all of row i is the same as standing at the start of row i + 1. */
  lemma MangroveRowEnd(cur: Generation, g: Generation, zone: real, acc: real, i: nat)
    requires cur.Valid() && i < cur.rows
    requires MangroveBefore(cur, g, Coord(i, cur.cols), zone, acc)
    ensures MangroveBefore(cur, g, Coord(i + 1, 0), zone, acc)
  {
  }

  /**
   What a whole pass promises about next, the generation it makes of cur:
   soil and land use change only as staging and migration allow,
   elevation rises by acc at most once and only on accretion sites,
   every accretion site whose soil was not staged has risen,
   every migration target next to a mangrove cell has migrated, and
   every staging target that is not an accretion site and lies next to a
   seeding cell that kept its soil through the pass has been staged; in
   particular every such target next to a mangrove-soil cell, since
   mangrove soil is never staged.
   */
  ghost predicate MangrovePassOutcome(cur: Generation, zone: real, acc: real, next: Generation)
    requires cur.Valid()
  {
    && next.SameShape(cur)
    && (forall q :: cur.Holds(q) ==> SoilChangeSound(cur, next, q, zone, acc))
    && (forall q :: cur.Holds(q) ==> UseChangeSound(cur, next, q, zone, acc))
    && (forall q :: cur.Holds(q) ==>
          || ElevationAt(next, q) == ElevationAt(cur, q)
          || (AccretionSite(cur, q) && ElevationAt(next, q) == ElevationAt(cur, q) + acc))
    && (forall q :: cur.Holds(q) && AccretionSite(cur, q) && SoilAt(next, q) == SoilAt(cur, q) ==>
          ElevationAt(next, q) == ElevationAt(cur, q) + acc)
    && (forall q :: cur.Holds(q) && MigrateTarget(cur, q, zone) && HasMangroveNeighbour(cur, q) ==>
          LandUseAt(next, q) == MangroveMigrated)
    && (forall q :: cur.Holds(q) && StageTarget(cur, q, zone) && !AccretionSite(cur, q)
                    && HasKeptSeedNeighbour(cur, next, q) ==>
          SoilAt(next, q) == MangroveMigratedSoil)
    && (forall q :: cur.Holds(q) && StageTarget(cur, q, zone) && !AccretionSite(cur, q)
                    && HasMangroveSoilNeighbour(cur, q) ==>
          SoilAt(next, q) == MangroveMigratedSoil)
  }

  /** Having visited every cell, the pass has its outcome. */
  lemma MangroveEnd(cur: Generation, next: Generation, zone: real, acc: real)
    requires cur.Valid()
    requires MangroveBefore(cur, next, Coord(cur.rows, 0), zone, acc)
    ensures MangrovePassOutcome(cur, zone, acc, next)
  {
    var end := Coord(cur.rows, 0);
    forall q | cur.Holds(q) && StageTarget(cur, q, zone) && !AccretionSite(cur, q) && HasKeptSeedNeighbour(cur, next, q)
      ensures SoilAt(next, q) == MangroveMigratedSoil
    {
      var p :| cur.Holds(p) && Adjacent(p, q) && p != q && KeptSeed(cur, next, p);
      assert Precedes(p, end);
    }
    forall q | cur.Holds(q) && StageTarget(cur, q, zone) && !AccretionSite(cur, q) && HasMangroveSoilNeighbour(cur, q)
      ensures SoilAt(next, q) == MangroveMigratedSoil
    {
      var p :| cur.Holds(p) && Adjacent(p, q) && p != q && SoilAt(cur, p) == MangroveSoil;
      assert SoilChangeSound(cur, next, p, zone, acc);
      assert Precedes(p, end) && KeptSeed(cur, next, p);
    }
  }

  /** The loop body of the pass: visiting (i, j) keeps the prefix properties. */
  method MangroveVisit(cur: Generation, g: Generation, zone: real, acc: real, i: nat, j: nat)
    returns (next: Generation)
    requires cur.Valid() && i < cur.rows && j < cur.cols
    requires MangroveBefore(cur, g, Coord(i, j), zone, acc)
    ensures MangroveBefore(cur, next, Coord(i, j + 1), zone, acc)
  {
    MangroveStep(cur, g, zone, acc, i, j);
    next := MangroveCell(g, Coord(i, j), zone, acc);
  }

  /** The rule at every cell of row i, left to right. */
  method MangroveRow(cur: Generation, start: Generation, zone: real, acc: real, i: nat)
    returns (next: Generation)
    requires cur.Valid() && i < cur.rows
    requires MangroveBefore(cur, start, Coord(i, 0), zone, acc)
    ensures MangroveBefore(cur, next, Coord(i + 1, 0), zone, acc)
  {
    next := start;
    var j := 0;
    while j < cur.cols
      invariant 0 <= j <= cur.cols
      invariant MangroveBefore(cur, next, Coord(i, j), zone, acc)
    {
      next := MangroveVisit(cur, next, zone, acc, i, j);
      j := j + 1;
    }
    MangroveRowEnd(cur, next, zone, acc, i);
  }

  /**
   The mangrove pass: the rule at every cell of the current generation, in
   row-major order, each call seeing the writes of the calls before it.
   */
  method MangrovePass(cur: Generation, zone: real, acc: real) returns (next: Generation)
    requires cur.Valid()
    ensures MangrovePassOutcome(cur, zone, acc, next)
  {
    next := cur;
    MangroveStart(cur, zone, acc);
    var i := 0;
    while i < cur.rows
      invariant 0 <= i <= cur.rows
      invariant MangroveBefore(cur, next, Coord(i, 0), zone, acc)
    {
      next := MangroveRow(cur, next, zone, acc, i);
      i := i + 1;
    }
    MangroveEnd(cur, next, zone, acc);
  }

  /** The pass writes only migrated mangrove, so recognised land-use codes stay recognised. */
  lemma MangroveKeepsCodes(cur: Generation, next: Generation, q: Coord, zone: real, acc: real)
    requires cur.SameShape(next) && cur.Holds(q)
    requires UseChangeSound(cur, next, q, zone, acc)
    ensures IsLandUseCode(LandUseAt(cur, q)) ==> IsLandUseCode(LandUseAt(next, q))
    ensures LandUseAt(next, q) != LandUseAt(cur, q) ==> LandUseAt(next, q) == MangroveMigrated
  {
  }
}
