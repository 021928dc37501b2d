# BR-MANGUE cellular automaton, modelled in Dafny

BR-MANGUE simulates how mangroves respond to sea-level rise on a raster of
cells. Each cell has three attributes: a land-use class (`Usos`), an
elevation (`Alt2`) and a soil class (`ClasseSolos`). The cellular space
keeps a current generation and a "past" copy of it. Each simulated year has
four steps:

1. A flooding pass over every cell, in row-major order. A cell that was sea
   or flooded in the past generation, at a non-negative past elevation,
   shares the year's sea-level rise. It splits the rise equally between
   itself and those Moore neighbours that lay strictly lower in the past
   generation. Each of those neighbours that was neither sea nor flooded
   takes its flooded land-use class.
2. A mangrove-dynamics pass over every cell, in row-major order. It reads
   the current generation, so it sees the writes of cells visited earlier.
   It has three rules:
   - Staging: a cell with mangrove or fluvial-channel soil gives
     migrated-mangrove soil to its colonisable neighbours that lie within
     the tidal-influence zone and whose soil is not mangrove soil.
   - Migration: a mangrove cell turns colonisable, in-zone neighbours with
     mangrove or migrated-mangrove soil into migrated mangrove.
   - Accretion: a cell that is neither sea nor flooded and passes the
     accretion guard rises by the year's accretion.
3. Synchronisation: the past generation becomes a copy of the current one.
4. Accounting: the areas of all ten land-use classes and the total go into
   the model's record. Only four values are appended to the result series:
   the year, the terrestrial-vegetation (class 2) area, the
   flooded-vegetation (class 10) area and the total.

The model is functional throughout:
- A `Generation` holds three grids.
- A `Space` holds the current and past generations.
- Each per-cell rule is a pure function. Each pass is a method that folds
  that function over the cells in row-major order.
- Quantities that the program computes in floating point are `real`
  numbers.

The modules follow the structure of the program:

| module | file | contents |
|---|---|---|
| `Codes` | `codes.dfy` | land-use and soil constants, `is_sea_or_flooded`, `apply_flooding` |
| `Grid` | `grid.dfy` | generations, the cellular space, synchronisation, Moore neighbourhoods, elevation totals |
| `Quantities` | `quantities.dfy` | repeated addition (`Times`) and the equal split of a quantity (`Share`) |
| `Accounting` | `accounting.dfy` | `inicializa` and `contagem`: per-class areas and the total |
| `Flood` | `flood.dfy` | `_apply_flooding_logic` and the flooding pass |
| `Mangrove` | `mangrove.dfy` | `_apply_mangrove_dynamics_logic` and the mangrove pass |
| `Simulation` | `simulation.dfy` | `BrMangueModel.__init__`, one simulated year, `run_simulation` |

## Model

| member | source | states |
|---|---|---|
| Codes.SeaOrFloodedCodes | br_mangue_backend.py:56-61 | A land-use code is sea or flooded exactly when it is 3, 6, 7, 9 or 10 (sea and the four flooded classes) |
| Codes.ApplyFlooding | br_mangue_backend.py:63-73 | A floodable class (mangrove, terrestrial vegetation, anthropized area, bare soil) moves to a sea-or-flooded class different from itself; every other code is returned unchanged |
| Grid.NewSpace | br_mangue_backend.py:76-85 | A cellular space is built exactly when the three grids have a common rectangular shape; it then holds the input grids, and its past generation equals its current one |
| Grid.Synchronize | br_mangue_backend.py:87-90 | After synchronisation the past generation is a copy of the current one, and the current generation is untouched |
| Grid.Neighbors | br_mangue_backend.py:117-124 | A cell's neighbour list holds exactly the in-grid cells of its 3x3 block, with the cell itself only when asked for; it is duplicate-free, in row-major order, and at most 8 or 9 long |
| Accounting.Zeroed | br_mangue_backend.py:40-42 | The starting record has an entry for exactly the ten land-use classes, each with area 0; unlike the program's dictionary, which has no total key yet, it also carries a total of 0 |
| Accounting.Tally | br_mangue_backend.py:40-54 | Every one of the ten classes gets an entry, whose area is the cell area times its number of cells; the total is the cell area times the number of cells with a recognised code |
| Accounting.AllKnownCounted | br_mangue_backend.py:49-54 | When every cell holds a recognised code, the total counts every cell |
| Flood.FloodCell | br_mangue_backend.py:146-179 | One visit of the flooding rule keeps the grid's shape and its soil, and a cell that is not sea or flooded at a non-negative past elevation leaves the generation unchanged |
| Flood.FireEffect | br_mangue_backend.py:172-179 | A firing cell adds the flow to its own current elevation and to each listed neighbour below it in the past generation; exactly those neighbours that were not sea or flooded in the past take their flooded class |
| Flood.FloodCellRaises | br_mangue_backend.py:146-176 | One visit raises the cell and its strictly lower Moore neighbours by rate/(1 + number of lower neighbours) when the cell was sea or flooded at a non-negative past elevation; nothing else moves |
| Flood.FloodCellFloods | br_mangue_backend.py:146-179 | One visit rewrites exactly the lower neighbours that were neither sea nor flooded in the past, to the flooded class of their past land use |
| Flood.FloodCellTotal | br_mangue_backend.py:166-176 | A firing visit adds exactly the year's rise to the grid's total elevation, because the flow times (1 + lower neighbours) is the rate; a silent visit adds nothing |
| Flood.FloodPass | br_mangue_backend.py:112-115 | The whole pass: a cell's land use becomes the flooded class of its past land use exactly when some firing cell floods it, and otherwise stays; soil is untouched; every cell's elevation ends as its start plus Rise: the sum, over the firing cells, of the flow each sends to it (a firing cell sends to itself and to its strictly lower neighbours); with a non-negative rate no elevation falls; a cell that no firing cell reaches keeps its elevation; the total rises by the rate once per firing cell; with no firing cell the generation is unchanged |
| Flood.InundatedLandUse | br_mangue_backend.py:176-179 | A cell the flooding pass reaches while it was neither sea nor flooded changes class exactly when its past class was floodable, and it then ends sea-or-flooded; its new class is one that flooding leaves unchanged |
| Flood.RiseFromOneSource | br_mangue_backend.py:166-176 | A cell that exactly one firing cell reaches rises, over the whole pass, by that cell's flow: the rate divided by 1 plus its number of lower neighbours, wherever it lies in the visiting order |
| Mangrove.TidalZoneValue | br_mangue_backend.py:186-191 | The tidal-influence zone of year t is the tide height plus t times the rise rate |
| Mangrove.AccretionValue | br_mangue_backend.py:186-189 | The accretion of year t, in metres, is (1.693 + 0.939 * t * rate * 1000) / 1000 |
| Mangrove.QuantitiesGrow | br_mangue_backend.py:186-191 | With a non-negative rate, the zone and the accretion never shrink over the years, and the accretion is at least 1.693 mm |
| Mangrove.StageEffect | br_mangue_backend.py:209-213 | The staging loop gives migrated-mangrove soil to exactly the listed neighbours that were colonisable, had non-mangrove soil and lay within the zone in the captured values |
| Mangrove.MigrateEffect | br_mangue_backend.py:216-220 | The migration loop gives migrated-mangrove land use to exactly the listed neighbours that were colonisable, within the zone and had mangrove or migrated-mangrove soil in the captured values |
| Mangrove.Dynamics | br_mangue_backend.py:193-224 | The three rules of one visit, over a given neighbour list, keep the grid's shape; a cell without mangrove or channel soil, without mangrove land use and outside the accretion guard changes nothing |
| Mangrove.MangroveCell | br_mangue_backend.py:181-224 | One visit of the mangrove rule over the cell's in-grid Moore neighbours keeps the shape, and a cell that triggers none of the three rules changes nothing |
| Mangrove.MangroveCellSoil | br_mangue_backend.py:193-213 | One visit changes a neighbour's soil exactly when the cell's soil is mangrove or fluvial channel and the neighbour is a staging target |
| Mangrove.MangroveCellLandUse | br_mangue_backend.py:193-220 | One visit changes a neighbour's land use exactly when the cell is mangrove and the neighbour is a migration target, judged on the soil captured before staging |
| Mangrove.MangroveCellElevation | br_mangue_backend.py:182-224 | One visit raises only the cell itself, by the accretion, and only when its soil code is 1 or 8 and its land use is neither sea nor flooded |
| Mangrove.MigrationSeesCapturedSoil | br_mangue_backend.py:193-220 | A neighbour whose captured soil is neither mangrove nor migrated mangrove keeps its land use, even when the same visit stages its soil |
| Mangrove.LaterCallSeesStaging | br_mangue_backend.py:112-115 | A neighbour staged by one visit is migrated by a later visit from an adjacent mangrove cell, because that visit reads the current generation |
| Mangrove.MangrovePass | br_mangue_backend.py:181-224 | The whole pass keeps the shape. Soil changes only to migrated-mangrove soil, on colonisable cells with non-mangrove soil, within the zone and next to a cell with mangrove or channel soil. Land use changes only to migrated mangrove, on colonisable, in-zone cells with mangrove or migrated-mangrove soil next to a mangrove cell. Elevation changes only by the accretion, at accretion sites. Completeness: every accretion site whose soil stays put rises; every in-zone colonisable cell with mangrove or migrated-mangrove soil next to a mangrove cell migrates; every in-zone colonisable cell with non-mangrove soil that is not an accretion site ends with migrated-mangrove soil when it lies next to a cell with mangrove soil, or next to a cell with channel soil that still has that soil after the pass |
| Simulation.NewModel | br_mangue_backend.py:127-144 | A model is built exactly when the cellular space is; it starts at year 0 with the input grids, every class area 0 and empty result series |
| Simulation.DefaultQuantities | br_mangue_backend.py:127-128 | With the constructor's default parameters (cell area 0.09, tide height 6, rise rate 0.5, 100 years) a run lasts 100 years, and year t has a tidal-influence zone of 6 + 0.5 t metres and an accretion of 0.001693 + 0.4695 t metres |
| Simulation.FloodKeepsCodes | br_mangue_backend.py:56-73 | The flooding pass never turns a recognised land-use code into an unrecognised one |
| Simulation.MangrovePassKeepsCodes | br_mangue_backend.py:215-220 | The mangrove pass never turns a recognised land-use code into an unrecognised one |
| Simulation.TotalCoversGrid | br_mangue_backend.py:49-54 | When every code is recognised, the classified area of a generation is the cell area times rows times columns |
| Simulation.Year | br_mangue_backend.py:228-240 | Year t runs the flooding pass on the synchronised space and then the mangrove pass, with year t's tidal zone and accretion, on the flooded generation: the ghost result is an outcome of the flooding pass, and the new generation is an outcome of the mangrove pass from it. It then synchronises, records year t, records every class area and the total as tallies of the new land use, and appends exactly the year, class 2, class 10 and total to the series; with every code recognised they stay recognised and the total is the grid's area |
| Simulation.Advance | br_mangue_backend.py:227-240 | One loop iteration extends the run by one year: the generation chain gains the year's outcome, the series gain its tally, and the record is the class areas and total of the new generation |
| Simulation.Run | br_mangue_backend.py:226-242 | The run goes through max(0, final_time) years. The ghost list of generations starts at the model's generation and ends at the final one, and each is an outcome of its year (flood pass, then mangrove pass) from the one before. The run appends exactly max(0, final_time) entries: the k-th has time k and the class-2, class-10 and total areas of the k-th generation; earlier entries are kept. It ends at year final_time. After at least one year the record holds every class area and the total of the final generation. With final_time at most 0 it changes nothing, and with recognised codes every appended total is the grid's area |

## Left out

- The raster and vector loaders and the resampling helpers are not part of this model. They do file I/O through rasterio and geopandas.
- The interactive front end is not part of this model either, and neither is the per-year progress `print`.
- Floating-point rounding is not modelled. Elevations and areas are exact `real` numbers, and `counts[i] * area_celula` and `current_time * rate` are repeated additions (`Times`). The `astype(int)`/`astype(float)` conversions are taken as given: the model receives integer and real grids.
- The string-keyed `model_data` dictionary and `uso_map` are modelled as a map keyed by land-use code. The result series read the entries for classes 2 and 10.
- `cell_size` is stored by the cellular space but never read, so it is not modelled. The cell-property accessor and setter are modelled as field reads and point updates on a generation.
- Grid.NewSpace: mismatched grid shapes are refused. The program does not check shapes; mismatched arrays fail, or misbehave, only once a cell is indexed.
- Simulation.NewModel: the program's initial `model_data` has no `total_USO` key, because `inicializa` sets only the ten class fields. The model's record always carries a total, and Accounting.Zeroed sets it to 0.
- Mangrove.MangroveCellElevation: the accretion guard compares the soil with the land-use codes for mangrove (1) and migrated mangrove (8). The model keeps this comparison exactly as the code writes it. The guard does not test the mangrove soil codes 3 and 9.
- Mangrove.MangrovePass: it states soundness for every change, and completeness only where the order of visits cannot undo it. Four cases are left open:
  - An accretion site is promised its rise only when the pass left its soil alone. A neighbour visited earlier may stage its soil to 9, which the accretion guard does not accept.
  - An accretion site is not promised staging. Its own earlier visit may lift it above the zone before its seeding neighbour reads its elevation.
  - A cell with fluvial-channel soil (0) is promised to stage its neighbours only when it still has that soil after the pass. A neighbour visited earlier may stage it to 9, and then it seeds nothing on its own visit.
  - Migration is promised only for cells whose soil was mangrove or migrated mangrove at the start of the pass. A cell staged earlier in the same pass and then visited by an adjacent mangrove cell also migrates. Mangrove.LaterCallSeesStaging shows this for one pair of visits; the pass outcome does not state it.
- Flood.FloodPass: the per-cell rise is stated as Rise, a sum of per-cell gains taken in visiting order. Flood.RiseFromOneSource reduces it to one flow for a cell that one firing cell reaches. For cells that several firing cells reach, no closed form is given beyond that sum.
