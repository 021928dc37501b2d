/**
 Land-use and soil classification codes of the mangrove cellular automaton,
 and the two classification functions the transition rules are built on.

 Codes are plain integers, as in the grids the engine consumes: a land-use
 field may hold values outside 1..10 (no-data sentinels), and soil classes
 are an open range of which only three values are distinguished.
 */
module Codes {

  // Land-use classes
  const Mangrove: int := 1
  const TerrestrialVegetation: int := 2
  const Sea: int := 3
  const AnthropizedArea: int := 4
  const BareSoil: int := 5
  const BareSoilFlooded: int := 6
  const AnthropizedFlooded: int := 7
  const MangroveMigrated: int := 8
  const MangroveFlooded: int := 9
  const TerrestrialVegetationFlooded: int := 10

  // Distinguished soil classes
  const FluvialChannel: int := 0
  const MangroveSoil: int := 3
  const MangroveMigratedSoil: int := 9

  /** The ten recognised land-use codes. */
  predicate IsLandUseCode(u: int) {
    Mangrove <= u <= TerrestrialVegetationFlooded
  }

  /** Land use that is open sea or a flooded class. */
  predicate IsSeaOrFlooded(u: int) {
    u == Sea || u == BareSoilFlooded || u == AnthropizedFlooded
    || u == MangroveFlooded || u == TerrestrialVegetationFlooded
  }

  /** The classes that have a flooded counterpart. */
  predicate IsFloodable(u: int) {
    u == Mangrove || u == TerrestrialVegetation || u == AnthropizedArea || u == BareSoil
  }

  /** The land use a cell takes when flood water reaches it. */
  function ApplyFlooding(u: int): (r: int)
    ensures IsFloodable(u) ==> IsSeaOrFlooded(r) && r != u
    ensures !IsFloodable(u) ==> r == u
  {
    if u == Mangrove then MangroveFlooded
    else if u == TerrestrialVegetation then TerrestrialVegetationFlooded
    else if u == AnthropizedArea then AnthropizedFlooded
    else if u == BareSoil then BareSoilFlooded
    else u
  }

  /** Sea-or-flooded holds exactly for the five codes 3, 6, 7, 9 and 10. */
  lemma SeaOrFloodedCodes(u: int)
    ensures IsSeaOrFlooded(u) <==> u in {3, 6, 7, 9, 10}
  {
  }

  /** Flooding maps 1 to 9, 2 to 10, 4 to 7 and 5 to 6; each image is sea-or-flooded. */
  lemma FloodingTable()
    ensures ApplyFlooding(1) == 9 && ApplyFlooding(2) == 10
    ensures ApplyFlooding(4) == 7 && ApplyFlooding(5) == 6
    ensures forall u :: u in {1, 2, 4, 5} ==> IsSeaOrFlooded(ApplyFlooding(u))
  {
  }

  /** A code changes under flooding exactly when it is one of the four floodable classes. */
  lemma FloodingMovesOnlyFloodable(u: int)
    ensures ApplyFlooding(u) != u <==> IsFloodable(u)
  {
  }

  /** Flooding is idempotent: a flooded class stays flooded. */
  lemma FloodingIdempotent(u: int)
    ensures ApplyFlooding(ApplyFlooding(u)) == ApplyFlooding(u)
  {
  }

  /** After flooding a code is sea-or-flooded exactly when it was already, or was floodable. */
  lemma FloodingResultClass(u: int)
    ensures IsSeaOrFlooded(ApplyFlooding(u)) <==> IsSeaOrFlooded(u) || IsFloodable(u)
  {
  }

  /** Flooding never takes a recognised code out of the range 1..10, and a moved code lands in 6..10. */
  lemma FloodingKeepsCodes(u: int)
    ensures IsLandUseCode(u) ==> IsLandUseCode(ApplyFlooding(u))
    ensures ApplyFlooding(u) != u ==> BareSoilFlooded <= ApplyFlooding(u) <= TerrestrialVegetationFlooded
  {
  }
}
