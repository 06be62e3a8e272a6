# A verified model of parts of Empire

Empire is a multi-player war game: a server keeps the world, and a client
connects players to it.  This project models three parts of it whose code keeps
several pieces of state consistent, and proves what they promise.

**The world generator** (`src/util/fairland.c`).  The world is a torus of hexagons.
Modules `HexTorus` and `Hexagon` hold its geometry: map distance is the distance of
the neighbour graph, and the hexagon iterator visits exactly the ring it promises.
`Bfs`, `Distances` and `Spheres` prove the breadth-first search exact, with its tie
labels and its second pass from the borders between spheres of influence.  `Land`,
`Zones` and `World` say that `own`, `sect`, `isecs` and `adj_land` agree, that `xzone`
is the compressed set of claims, and that islands keep their distance, in every
state reached; `Chance`, `Sampling` and `Growth` that islands grow fairly, sector by
sector; `Placing` says exactly when new islands are placed fairly.  `Continents`,
`Sizes` and `Islands` show that sectors are neither lost nor made, also when an
unfinished round is rolled back, and that islands are in the spheres of influence they
belong to.  `Drift` is about placing capitals, `Hills`, `Elevation` and `Resources` about
elevations, and `Fairland` puts everything together: `CreateWorld` is the generator.
`TieExample` holds a world where code and comment differ.

**The client's input and output** (`ringbuf.c`, `secure.c`, `linebuf.c`, `play.c` in
`src/client`).  `RingBuf` shows that the ring buffer with its 32 bit counters is a
byte queue, and says exactly when the operations that compare raw counters are
right.  `Secure` is about the bounded memory of recent input, from which whole lines
are forgotten.  `Output` shows that the state machine that reads server output does
what a line-by-line parser does, however the stream is cut, and `LineIds` what the IDs
of these lines mean.  `PlayLoop` is about the
loop that injects cookies into player input, over any number of rounds.

**Moving goods and units** (`load.c` and `move.c` in `src/lib/commands`).  Commands
read copies of records, may wait at prompts while other commands run, check their
copies again, and write them back.  `Cargo`, `Carriers` and `Move` model them as steps
between prompts, run by any number of players in any order.  Goods are conserved,
the carrier relation stays a forest, and goods on the move are accounted for.

The code is imperative, and so is the model where it can be: classes hold the arrays
and counters, methods have the source's loops, and each is tied to functions on
values about which the lemmas are.  Commands that wait at prompts are state machines.

## What is required

The requires clauses state what the source needs but does not always check.

- World dimensions are even and at least 6, and twice `di` and `id` do not exceed
  `WORLD_X`, because `new_x` repairs one wrap only.
- `nc` is at most 254, because 255 is the tie mark in `closest`; `ni` is a multiple of
  `nc` and not zero, because `size_islands` writes to its first element.
- Continents have at least two sectors, for their capitals.
- Islands are distinct, and `id <= di`; otherwise the assertion in
  `xzone_around_sector` can fail, as `Zones.RebuildAssertionsHold` shows exactly.
- The world is not so large that sums of weights or the seen counter overflow.
- `Ring.Peek` and `Ring.Search` say exactly when they are right; the other ring
  operations are right for all counters.
- Lines of player input fit into the memory of input, newline included.

## Where code and comments differ

The model follows the code.

- `hexagon_next` returns true while the ring is not complete; its comment says the
  opposite (`src/util/fairland.c:776-793`).
- The header of `fairland.c` promises sea in [-127,-1] (`src/util/fairland.c:107`); sea
  that no depression covers stays at 0.  `Elevation.CreateElevations` says which sectors
  these are, and `Hills.FlatSeaIsPossible` that there are worlds where it is all of the sea.
- `init_spheres_of_influence` promises that a sector closest to several continents has
  label -1 (`src/util/fairland.c:970-973`).  The border pass may relabel it:
  `Spheres.TieKeptExactlyWhen` says when it does not, and `TieExample.TieIsRelabelled`
  is a case where it does.
- `place_island` adds up weights that are cut off, and compares rolls with weights that
  are not, so places are not chosen with chances in proportion to either.
  `Placing.ProportionalExactlyWhen` says exactly when they are.
- `stable` may report stability after four turns instead of five, when isolation happens
  to equal an initial value of `mc` (`Drift.Capitals.Stable`).
- `xzone_valid` is never set, so zones are drawn again in every round.
- A comment in `c_move` speaks of taking over unowned sectors; the code delivers to
  sectors of the player only.

## Model

| member | source | states |
|---|---|---|
| `HexTorus.SectorHasCoordinates` | src/lib/common/xy.c:210-214 | Every sector offset has normalized coordinates, and XYOFFSET takes them back to it: sctoff2xy and XYOFFSET are inverse |
| `HexTorus.CoordinatesOfOffset` | src/lib/common/xy.c:210-214 | The other direction of that round trip: coordinates survive the conversion to an offset and back |
| `HexTorus.Wrapped` | src/util/fairland.c:221-222 | new_x and new_y repair exactly one wrap in either direction; the caller has to stay within that |
| `HexTorus.BackAndForth` | src/util/fairland.c:1026-1041 | A step in a direction followed by one in the opposite direction leads back, which is what adj_land_update relies on |
| `HexTorus.NeighborsAre` | src/lib/global/dir.c:52-55 | The coordinates of the six neighbours, wrap-around included |
| `HexTorus.Delta` | src/lib/common/mapdist.c:39-61 | The distance of two coordinates on a circle is the shorter of the two ways round |
| `HexTorus.DistBounded` | src/lib/common/mapdist.c:63-73 | Map distances fit into the unsigned short array that fairland keeps them in |
| `HexTorus.DistSymmetric` | src/lib/common/mapdist.c:63-73 | mapdist is symmetric |
| `HexTorus.DistZero` | src/lib/common/mapdist.c:63-73 | mapdist is zero for a sector and itself only |
| `HexTorus.DistStep` | src/lib/common/mapdist.c:63-73 | One step changes the map distance to any sector by at most one |
| `HexTorus.DistDescent` | src/lib/common/mapdist.c:63-73 | From any other sector some step comes closer: together with the step bound, mapdist is the distance of the neighbour graph on the torus |
| `Hexagon.RingPointDist` | src/util/fairland.c:762-793 | All points the iterator visits on radius n are at distance n in the plane |
| `Hexagon.RingComplete` | src/util/fairland.c:762-793 | Every point at distance n is visited, with its side and position computed |
| `Hexagon.RingPointsDistinct` | src/util/fairland.c:762-793 | No point is visited twice: the ring has 6n points |
| `Hexagon.AtStep` | src/util/fairland.c:780-793 | A step on the torus is a step in the plane, however often it wraps around |
| `Hexagon.AtDist` | src/lib/common/mapdist.c:63-73 | Wrapping around never makes a sector farther than its position in the plane |
| `Hexagon.PositionOf` | src/lib/common/mapdist.c:63-73 | Every sector has a position in the plane at exactly its map distance |
| `Hexagon.BallGrows` | src/util/fairland.c:807-829 | Rings 1 to n and the centre are exactly the sectors within map distance n, also in worlds so small that rings meet themselves |
| `Hexagon.RingWalk` | src/util/fairland.c:780-793 | A step along a side leads to its next point, or turns the corner |
| `Hexagon.RingUpToIsRingBefore` | src/util/fairland.c:762-793 | The sequence of sectors handed out holds exactly the sectors of the ring |
| `Hexagon.HexagonIter.First` | src/util/fairland.c:762-778 | hexagon_first puts the iterator on the first point of the ring, provided the radius wraps at most once |
| `Hexagon.HexagonIter.Next` | src/util/fairland.c:780-793 | hexagon_next hands out the ring in order, side by side, and repeats sectors where the ring meets itself; it returns true until the ring is complete, and is back at the first point then |
| `Bfs.EnqueueKeeps` | src/util/fairland.c:893-922 | Relaxing a shorter edge keeps the search invariant: queue ordered by distance, distances improved only along tight edges, labels that reflect all tight edges seen |
| `Bfs.VisitKeeps` | src/util/fairland.c:906-916 | Visiting a neighbour on an equally short or longer path keeps the invariant; an equally short one with another label makes a tie |
| `Bfs.RunEnds` | src/util/fairland.c:893-922 | With the queue empty, the invariant has become convergence: no edge can be relaxed any more |
| `Bfs.BfsQueue.Init` | src/util/fairland.c:858-873 | bfs_init leaves no distances, only ties, and an empty queue |
| `Bfs.BfsQueue.Enqueue` | src/util/fairland.c:875-891 | bfs_enqueue appends a sector; the circular queue of WORLD_SZ slots never overfills |
| `Bfs.BfsQueue.Dequeue` | src/util/fairland.c:898-903 | Taking the oldest sector from the circular queue |
| `Bfs.BfsQueue.Visit` | src/util/fairland.c:906-916 | One neighbour of the sector taken: the array update is the relaxation step the lemmas are about |
| `Bfs.BfsQueue.RunQueue` | src/util/fairland.c:893-922 | bfs_run_queue ends in convergence, and every sector that is reached leaves the queue exactly once |
| `Distances.NoFarther` | src/util/fairland.c:893-922 | After the search no source is closer to a sector than the distance recorded |
| `Distances.Supported` | src/util/fairland.c:893-922 | The distance recorded is that to some source |
| `Distances.DistanceIsMinimum` | src/util/fairland.c:893-922 | Search distances are exact: the smaller of the initial distance and the map distance to the nearest source plus the starting level |
| `Distances.LabelIsNearest` | src/util/fairland.c:906-916 | In every sector that is reached, the label is c exactly when all nearest sources carry label c; otherwise it is the tie mark |
| `Spheres.IsCoastal` | src/util/fairland.c:748-751 | is_coastal, computed from adj_land, says whether some neighbour is sea |
| `Spheres.EnqueueIslands` | src/util/fairland.c:924-932 | After bfs_enqueue_island for the first n islands the queue holds exactly their coastal sectors |
| `Spheres.FirstPass` | src/util/fairland.c:975-985 | One run from the coasts leaves the exact distance to the nearest coastal sector, and as label the continent all nearest coasts belong to, else a tie |
| `Spheres.InitDistanceToCoast` | src/util/fairland.c:995-1005 | init_distance_to_coast computes exactly that for all islands |
| `Spheres.EnqueueBorder` | src/util/fairland.c:938-968 | bfs_enqueue_border enqueues exactly the labelled sectors that are farther than id + 1 from the coast and next to another sphere, with distance id + 1 |
| `Spheres.LabelStays` | src/util/fairland.c:975-985 | The border pass never relabels a sector that had a unique closest continent |
| `Spheres.Relabelled` | src/util/fairland.c:906-916 | When the border pass labels a tied sector c, in terms of the arrays before that pass: exactly when some border sector is nearer than the coast, counting id + 1 for the border, and all border sectors nearest to it are in sphere c |
| `Spheres.TieKeptExactlyWhen` | src/util/fairland.c:970-985 | A sector closest to several continents keeps the mark -1, as the comment promises, exactly when no border is nearer than its coast or the nearest borders are of different spheres |
| `TieExample.TieIsRelabelled` | src/util/fairland.c:970-985 | It need not: with two continents of two sectors each in one row, a sector equally far from both gets the label of one of them |
| `Spheres.SecondPass` | src/util/fairland.c:975-985 | The border pass leaves the smaller of the coast distance and id + 1 plus the distance to the nearest border sector |
| `Spheres.InitSpheres` | src/util/fairland.c:975-985 | init_spheres_of_influence computes both passes |
| `Land.SetBit` | src/util/fairland.c:1026-1041 | Setting one direction in adj_land changes that direction only |
| `Land.ClearBit` | src/util/fairland.c:1026-1041 | Clearing one direction in adj_land changes that direction only |
| `Land.FullSet` | src/util/fairland.c:748-751 | Comparing adj_land to all six directions tells whether some neighbour is sea |
| `Land.ClearLowest` | src/util/fairland.c:1057-1072 | Clearing the lowest bit lowers the number of directions by one: the counting loop of grow_weight |
| `Land.LandCounted` | src/util/fairland.c:1057-1072 | The number of bits in adj_land is the number of directions in which there is land |
| `Land.AddingKeepsLand` | src/util/fairland.c:1043-1054 | After a sector is added, own, sect, isecs and adj_land still agree, and the island is still grown from its first sector |
| `Land.DroppingKeepsLand` | src/util/fairland.c:1259-1270 | After the last sector of an island is taken back, own, sect, isecs and adj_land still agree |
| `Land.IslandConnected` | src/util/fairland.c:1043-1054 | In every such state any two sectors of an island are joined by a path inside the island |
| `Zones.CompressMeaning` | src/util/fairland.c:796-805 | What a compressed zone mark says about the set of islands that claim a sector |
| `Zones.AddingKeepsZones` | src/util/fairland.c:807-829 | Marking the sectors around a new one keeps xzone equal to the compressed set of claimants |
| `Zones.OutOfReach` | src/util/fairland.c:796-805 | A sector that passes xzone_ok is out of reach of all other islands |
| `Zones.ZoneAllows` | src/util/fairland.c:796-800 | xzone_ok holds exactly when the sector is farther from every sector of every other island than that island's zone is wide |
| `World.World.CanGrowAtIsOpenTo` | src/util/fairland.c:1019-1024 | can_grow_at holds exactly when nobody owns the sector, it is in reach of no other island, and for an island in the sphere of its continent |
| `Zones.AddingKeepsSeparation` | src/util/fairland.c:1043-1054 | Growing where xzone_ok allows keeps continents more than di, and other islands more than id sectors apart |
| `Zones.RebuildAssertionsHold` | src/util/fairland.c:807-848 | The assertion in xzone_around_sector holds throughout xzone_init exactly when all islands are farther apart than the new width |
| `World.World.constructor` | src/util/fairland.c:600-616 | allocate_memory: a world without islands |
| `World.World.Init` | src/util/fairland.c:622-627 | init: no land anywhere, and the arrays agree about it |
| `World.World.XzoneAroundSector` | src/util/fairland.c:807-829 | Exactly the sectors within the distance are claimed, each once in effect, also where the zone wraps around |
| `World.World.XzoneAroundIsland` | src/util/fairland.c:831-838 | The zones of all sectors of an island |
| `World.World.XzoneInit` | src/util/fairland.c:843-852 | xzone_init leaves exactly the zones of the first n islands, of width id |
| `World.World.AdjLandUpdate` | src/util/fairland.c:1026-1041 | adj_land of the six neighbours is updated for a sector that has become land or water; nothing else changes |
| `World.World.AddSector` | src/util/fairland.c:1043-1054 | add_sector keeps the whole world consistent: owners, lists, adjacency, zones and separation |
| `World.World.DropSector` | src/util/fairland.c:1263-1268 | Rolling back a sector keeps the world consistent; zones are left as they are |
| `World.World.StartIsland` | src/util/fairland.c:1134-1134 | Setting isecs to zero brings the next island to life |
| `Chance.LeastPowerOfTwo` | src/lib/gen/chance.c:61-72 | round_up_to_pow2 gives the least power of two that is no less than its argument, up to 2^31 |
| `Chance.AcceptedInRange` | src/lib/gen/chance.c:78-88 | The signed comparison in roll0 accepts a masked word exactly when it is in [0,n); for n = 0 nothing is masked, and exactly the negative numbers are accepted |
| `Chance.RollsAreUniform` | src/lib/gen/chance.c:78-88 | Every number in [0,n) is rolled for some word of the generator, and an involution on words takes the words for one number to the words for any other: all are equally likely |
| `Chance.Roll0From` | src/lib/gen/chance.c:78-88 | The loop of roll0 returns the first masked word that is in range, whatever words the generator delivers |
| `Sampling.ChoosesPositive` | src/util/fairland.c:1100-1112 | When weights are not all zero, the one-pass choice ends on a candidate with non-zero weight, whatever is rolled |
| `Sampling.CountWinning` | src/util/fairland.c:1100-1112 | The number of roll vectors that end on candidate i is its weight times the number of ways to roll for all but the last |
| `Sampling.ExactlyProportional` | src/util/fairland.c:1100-1112 | Every candidate is chosen with a chance exactly proportional to its weight |
| `Growth.GrowWeight` | src/util/fairland.c:1057-1072 | grow_weight counts the land neighbours and weighs the sector by them, differently in spike mode |
| `Growth.GrowsWhen` | src/util/fairland.c:1057-1119 | The weights of candidates add up to zero exactly when there is no candidate, or when in spike mode all of them have land all around |
| `Growth.ScanIsland` | src/util/fairland.c:1087-1112 | Scanning the neighbours of the island considers each sector it can grow to once, thanks to the seen marks |
| `Growth.GrowOneSector` | src/util/fairland.c:1077-1119 | grow_one_sector: a candidate is each sector that is next to the island, free, out of reach of other islands, and in the right sphere, and no other; weights go by land neighbours, one way or the other as the roll against sp decides; the island grows exactly when some weight is positive, by the candidate sampled, and nothing else changes |
| `Continents.GrowRound` | src/util/fairland.c:1150-1154 | A round offers one sector to each of nc islands; those that grow keep all they had |
| `Continents.AddCapital` | src/util/fairland.c:1135-1142 | Both capital sectors can be added once both are free: the claim of the first does not block the second |
| `Continents.PlaceCapitals` | src/util/fairland.c:1133-1146 | Every continent starts with the capital and the sector to its right; this succeeds exactly when these pairs of sectors are more than di apart |
| `Continents.GrowContinents` | src/util/fairland.c:1126-1160 | On success every continent has exactly sc sectors and starts with its capital; it fails only when capitals do not fit, or some continent has no sector to grow to except such as have land all around; the world stays consistent |
| `Continents.StuckGoesOn` | src/util/fairland.c:1150-1156 | A continent that is stuck in one round is stuck at the end of it |
| `Sizes.SizeIslands` | src/util/fairland.c:1200-1218 | size_islands: n sizes in descending order, each in [1, 2*is-1], that add up to n*is |
| `Islands.FarFromLand` | src/util/fairland.c:1175-1176 | The assertion in place_island holds: a place for a new island is more than id from all land |
| `Placing.ProportionalExactlyWhen` | src/util/fairland.c:1178-1183 | The chances of places are proportional to what they add to the sum exactly when no place but the first has its weight cut off: the roll is compared with the whole weight |
| `Placing.CutIsFavoured` | src/util/fairland.c:1178-1183 | Otherwise the last place whose weight is cut off is chosen too often |
| `Placing.NotAlwaysProportional` | src/util/fairland.c:1178-1183 | Two places with weights 1 and 4, cut off at 1, do not have equal chances |
| `Islands.FindPlace` | src/util/fairland.c:1167-1191 | The places considered are exactly the free sectors out of reach of all islands and in the sphere of the continent; the place is the one the rolls choose among all of these in order, with the square of how far they are beyond id as weight |
| `Islands.PlaceIsland` | src/util/fairland.c:1167-1191 | place_island adds the sector drawn from exactly these places, when there are any, and changes nothing otherwise |
| `Islands.PlaceRound` | src/util/fairland.c:1242-1250 | One island of size one is placed for each continent, in that continent's sphere, and earlier islands stay as they are |
| `Islands.GrowToSize` | src/util/fairland.c:1251-1258 | Either all islands of the round reach the size, or they have all but the last sector and some of them lack that one, and are stuck; all stay in their spheres |
| `Islands.FindSpheres` | src/util/fairland.c:1231-1231 | Once continents are complete, closest holds exactly their spheres of influence |
| `Islands.IslandInItsSphere` | src/util/fairland.c:65-68 | Every sector of an island is in one continent's sphere: nearest to coasts of that continent only, or tied and nearest to borders of its sphere only |
| `Islands.RollBack` | src/util/fairland.c:1259-1270 | Taking back an unfinished round leaves all its islands equally large and the world consistent; the island that was stuck still is |
| `Islands.IslandRound` | src/util/fairland.c:1242-1272 | All nc islands of a round end up the same size: that asked for, unless some island is stuck; none is placed only when some has no place |
| `Islands.RebuildZones` | src/util/fairland.c:1232-1238 | Drawing zones again with the smaller width trips no assertion and keeps separation |
| `Islands.GrowIslands` | src/util/fairland.c:1224-1288 | On success there are ni islands in rounds of equal size, each in its continent's sphere; every round is as large as the sizes drawn and the carry make due, unless an island was stuck then; per continent, sectors grown plus the final carry are exactly (ni/nc)*is; continents are untouched.  It fails only for lack of a place |
| `Islands.NextRound` | src/util/fairland.c:1233-1278 | One pass of the loop adds one round of islands of the largest size that is due, unless some island is stuck |
| `Drift.IsolationIsMinimum` | src/util/fairland.c:641-657 | iso is the minimum distance to the other capitals: it is at least m exactly when all of them are |
| `Drift.MovingKeepsSpread` | src/util/fairland.c:723-740 | Moving a capital to a place no less isolated never lowers the minimum pairwise distance |
| `Drift.DriftingKeepsSpread` | src/util/fairland.c:723-740 | Neither does drift_capital |
| `Drift.Capitals.Iso` | src/util/fairland.c:641-657 | iso |
| `Drift.Capitals.DriftCapital` | src/util/fairland.c:723-740 | The capital moves to a neighbour that is no less isolated, or stays where it is when none of the six directions is any good; no other capital moves |
| `Drift.Capitals.Stable` | src/util/fairland.c:691-716 | stable records how isolated the most isolated capital is, and reports stability exactly when that has been the same for five turns checked, the current one included; or for the first four, when it happens to equal the initial value in mc that has not been overwritten |
| `Drift.Capitals.MostIsolated` | src/util/fairland.c:704-708 | The isolation of the most isolated capital |
| `Drift.Capitals.Drift` | src/util/fairland.c:662-684 | drift runs turns in each of which every capital drifts in its order, from the first sectors on, as the trace it returns tells: until stable first reports stability, or DRIFT_MAX turns are over; capitals end up on different sectors |
| `Drift.Capitals.DriftAll` | src/util/fairland.c:677-682 | One turn: every capital drifts once, each to a neighbour that is no less isolated, or stays when there is none |
| `Hills.HillsStayAshore` | src/util/fairland.c:1324-1344 | Hills and depressions never cross the coast: within reach of land there is only land, within reach of sea only sea |
| `Hills.RaiseHill` | src/util/fairland.c:1333-1344 | The new elevations are those of raising the centre, then ring after ring in the order of the iterator, and n decreases by exactly 1 + 3r(r-1); land stays at zero or above, sea at zero or below |
| `Hills.HillShape` | src/util/fairland.c:1333-1344 | So every sector less than r away is raised (or lowered) by at least r*r - d*d unless limited, and no other sector changes |
| `Hills.DrawHill` | src/util/fairland.c:1324-1332 | A hill is 1 to MIN(3, distance) sectors wide at sea, and up to one more on land |
| `Hills.ElevatePrep` | src/util/fairland.c:1314-1347 | elevate_prep terminates; elevations are exactly those after the hills drawn, as many as it takes to raise sectors 8 times WORLD_SZ; exactly the sectors that some hill covers have an elevation other than zero, land above and sea below |
| `Hills.FlatSeaIsPossible` | src/util/fairland.c:107-107 | In every world with land there is a run of elevate_prep that leaves all of the sea at zero |
| `Elevation.SortAscending` | src/util/fairland.c:1304-1311 | Sorting with elev_cmp orders sectors by elevation, then offset |
| `Elevation.HeightRange` | src/util/fairland.c:1365-1376 | By rank, ordinary land gets [1,97] and mountains [98,127] |
| `Elevation.HeightMonotone` | src/util/fairland.c:1365-1376 | Sectors that rank higher are no lower |
| `Elevation.AssignPlains` | src/util/fairland.c:1365-1370 | The running sum of steps gives each plain the height of its rank |
| `Elevation.AssignMountains` | src/util/fairland.c:1371-1376 | The running sum of steps gives each mountain the height of its rank |
| `Elevation.ElevateIsland` | src/util/fairland.c:1357-1376 | An island gets a plateau for the capital and heights by rank for the rest; other sectors keep their elevation |
| `Elevation.ElevateLand` | src/util/fairland.c:1349-1378 | All islands are elevated that way, each according to its own raw elevations |
| `Elevation.SeaLevelRange` | src/util/fairland.c:1383-1394 | Negative elevations are mapped into [-127,-1], the lowest to -127 |
| `Elevation.SeaLevelMonotone` | src/util/fairland.c:1383-1394 | The deeper of two sectors stays at least as deep |
| `Elevation.ElevateSea` | src/util/fairland.c:1383-1394 | Sea elevations are scaled to [-127,-1] by the lowest of all, in order; everything else stays |
| `Elevation.CreateElevations` | src/util/fairland.c:1296-1301 | Elevations are those of raising hills, ranking every island by them and scaling the sea, each in terms of the one before: sea in [-127,0], 0 exactly where no depression was drawn; land in [1,127], capitals on their plateau |
| `Elevation.SameSizeSameElevations` | src/util/fairland.c:104-105 | Islands of the same size get the same set of elevations, and so do continents |
| `Elevation.LargerHaveMoreMountains` | src/util/fairland.c:104-105 | A larger island gets all the mountain elevations that a smaller one gets, and any more it gets are no lower |
| `Elevation.MountainsByRank` | src/util/fairland.c:1349-1410 | Exactly the sectors ranked as mountains become mountains, and the other sectors of the island but the capital's plateau become plains |
| `Elevation.WriteSects` | src/util/fairland.c:1451-1467 | A sector is written as water exactly when nobody owns it, the two capital sectors of every continent come out rural, the new type is the same, coastal says whether there is sea next to it, and the five resources are those for its elevation |
| `Resources.ConfsOk` | src/util/fairland.c:147-193 | The five resource tables cover all elevations in ascending order |
| `Resources.ElevToResource` | src/util/fairland.c:1419-1433 | The resource is the value at the elevation of the line through the two data points around it, rounded down; it is between theirs, exact at data points, and in [0,100] |
| `Resources.ResourceIsUnique` | src/util/fairland.c:1419-1433 | That determines it, also at data points, where two lines meet |
| `Resources.AddResources` | src/util/fairland.c:1436-1443 | add_resources takes the five resources from the five tables |
| `Fairland.GrowAll` | src/util/fairland.c:392-398 | Growing continents, then islands, gives a fair and separated world on success |
| `Fairland.Tries` | src/util/fairland.c:391-409 | No more than NUMTRIES tries; success means a finished world, and failure that after the last try capitals or islands did not fit |
| `Fairland.CreateWorld` | src/util/fairland.c:385-427 | Either a finished world as all the members above promise it, elevated and written as drawn: water where nobody owns the sector, rural capitals, types, deposits, coast and territory; or no world, for lack of room |
| `Fairland.IslandsBelong` | src/util/fairland.c:65-68 | In a finished world, all sectors of island number c are in the sphere of continent c % nc |
| `RingBuf.Find` | src/client/ringbuf.c:164-179 | The leftmost occurrence at or after a position, the meaning of ring_search |
| `RingBuf.Ring.constructor` | src/client/ringbuf.c:45-49 | ring_init: empty |
| `RingBuf.Ring.Len` | src/client/ringbuf.c:54-59 | ring_len is the number of bytes, also when the 32 bit counters have wrapped |
| `RingBuf.Ring.Space` | src/client/ringbuf.c:64-67 | ring_space is the room left |
| `RingBuf.Ring.Peek` | src/client/ringbuf.c:78-99 | ring_peek delivers the byte it promises exactly when the raw counters it compares are comparable |
| `RingBuf.Ring.Getc` | src/client/ringbuf.c:104-110 | ring_getc takes the oldest byte, EOF exactly when there is none |
| `RingBuf.Ring.Putc` | src/client/ringbuf.c:116-122 | ring_putc appends a byte, EOF exactly when the ring is full |
| `RingBuf.Ring.Putm` | src/client/ringbuf.c:129-145 | ring_putm appends all bytes or none, and returns the room that is left or lacking |
| `RingBuf.Ring.Discard` | src/client/ringbuf.c:151-156 | ring_discard drops the n oldest bytes |
| `RingBuf.Ring.MatchAt` | src/client/ringbuf.c:170-176 | The inner loop compares the string with the bytes at a position |
| `RingBuf.Ring.Search` | src/client/ringbuf.c:164-179 | ring_search finds what it promises exactly when its start and end are comparable, or there is nothing to be found, or, when only its start has wrapped around, no match at all in the buffer from its first slot on |
| `RingBuf.Ring.ReadV` | src/client/ringbuf.c:185-216 | readv fills the segments in order |
| `RingBuf.Ring.FromFile` | src/client/ringbuf.c:185-216 | ring_from_file appends what was read, in order |
| `RingBuf.Ring.ToIovec` | src/client/ringbuf.c:222-242 | The segments of ring_to_iovec concatenate to the contents |
| `RingBuf.FreeSegments` | src/client/ringbuf.c:187-208 | The segments given to readv are exactly the free slots, in order |
| `RingBuf.UsedSegments` | src/client/ringbuf.c:224-241 | The segments given to writev are exactly the used slots, in order |
| `Secure.MemoryStartUnique` | src/client/secure.c:47-57 | The longest suffix that starts with a line and fits into the ring is unique |
| `Secure.AssertionFailsExactlyWhen` | src/client/secure.c:53-55 | The assertion of save_input fails for some byte of a history exactly when some line is longer than the ring, newline included |
| `Secure.StartMoves` | src/client/secure.c:47-57 | Forgetting the oldest line moves the memory to the next longest suffix that fits |
| `Secure.Memory.ForgetLine` | src/client/secure.c:53-55 | Exactly the oldest line is forgotten |
| `Secure.Memory.SaveInput` | src/client/secure.c:47-57 | After save_input the ring holds exactly the longest suffix of all input so far that starts with a line and fits, unless its assertion fails |
| `Secure.Memory.SeenInput` | src/client/secure.c:64-71 | seen_input says whether its argument occurs in the memory |
| `Secure.Memory.ExtractText` | src/client/secure.c:93-99 | The command is copied backwards without overrunning the local buffer: it is the rest of the line, or the previous line |
| `Secure.Memory.IsExecute` | src/client/secure.c:102-105 | The first word is compared: a prefix of "execute" of at least two letters |
| `Secure.Memory.SeenExecInput` | src/client/secure.c:76-107 | seen_exec_input returns 1 exactly when some occurrence of the argument at position 2 or later follows an execute command; it terminates |
| `Secure.FirstWordIs` | src/client/secure.c:101-105 | The first word of a line, after blanks as isspace knows them, up to a blank or zero |
| `Secure.ExecutesExactlyWhen` | src/client/secure.c:86-107 | After complete lines, an argument follows an execute command, on its line or alone on the next one, exactly when the first word of that line is execute, cut off after two characters or more |
| `Output.LineBuf.Init` | src/client/linebuf.c:44-49 | lbuf_init empties the line |
| `Output.LineBuf.Putc` | src/client/linebuf.c:88-106 | lbuf_putc appends, completes the line at a newline, or drops what does not fit |
| `Output.RunInTwo` | src/client/play.c:328-422 | However the server stream is cut into reads, the state machine makes the same calls |
| `Output.RunIsParse` | src/client/play.c:328-422 | The calls are those of a parser that works line by line, when buffered lines fit |
| `Output.NotFittingIsCut` | src/client/play.c:394-395 | A buffered line that does not fit is reported with length -1 before its end |
| `Output.RunIsParseExactly` | src/client/play.c:328-422 | The state machine agrees with the line parser exactly when all buffered lines have at most 4094 bytes of text |
| `Output.Receiver.ScanId` | src/client/play.c:360-391 | State SCANNING_ID refines the state machine |
| `Output.Receiver.Buffer` | src/client/play.c:393-412 | One byte in state BUFFERING, with the switch to a batch file or back that a server command may cause, exactly as its result says |
| `Output.Receiver.RecvOutput` | src/client/play.c:328-422 | recv_output on a chunk is a run of the state machine over its bytes; where input comes from afterwards, and whether an interrupt is due, follow from what servercmd returned |
| `Output.RecvAll` | src/client/play.c:328-422 | Over any number of calls of recv_output, the calls made are those of the line parser exactly when buffered lines fit |
| `LineIds.IdRoundTrip` | src/client/expect.c:80-94 | An ID that the server writes in base 36, in lower or upper case, is read back as that number, and as -1 when it is not one of the IDs there are |
| `LineIds.ParseIdOfNumber` | src/client/expect.c:80-94 | So is any text of base 36 digits, leading zeros or not |
| `LineIds.MalformedId` | src/client/expect.c:80-94 | Text without digits, or with any other character before the space, is no ID |
| `LineIds.SignedId` | src/client/expect.c:86-94 | strtol takes a sign: a negative number is passed on as such |
| `LineIds.BlankSkipped` | src/client/expect.c:86-94 | strtol skips blanks before the ID |
| `LineIds.CommandIds` | src/client/play.c:371-391 | The IDs whose lines are buffered for servercmd, by number as in proto.h |
| `LineIds.LineWithId` | src/client/play.c:350-415 | A line that starts with a number is passed to servercmd with that number exactly when it is one of these, and its text is copied to the screen otherwise |
| `PlayLoop.LogEofCookie` | src/client/play.c:613-615 | An EOF cookie put when no line is partial is on a line of its own, and one EOF is accounted for |
| `PlayLoop.LogIntrCookie` | src/client/play.c:616-624 | So is an interrupt cookie |
| `PlayLoop.CookieKeepsShort` | src/client/play.c:610-624 | Cookies do not make lines longer than what the memory of input can hold |
| `PlayLoop.CookiesAre` | src/client/play.c:61-62 | The text of the cookies |
| `PlayLoop.Player.constructor` | src/client/play.c:579-581 | Nothing has been put or written, and no cookie is due |
| `PlayLoop.Player.CompleteLine` | src/client/play.c:610-612 | A partial line is completed before a cookie |
| `PlayLoop.Player.PutCookie` | src/client/play.c:613-618 | A cookie enters the stream as a whole, exactly when it fits |
| `PlayLoop.Player.PutEofCookie` | src/client/play.c:613-615 | The EOF cookie is put at most once per end of input |
| `PlayLoop.Player.PutIntrCookie` | src/client/play.c:616-624 | The interrupt cookie is put, and a batch file aborted |
| `PlayLoop.Player.PutCookies` | src/client/play.c:610-624 | What is put in a round is what is due and fits, in order; flags are cleared for exactly the cookies put |
| `PlayLoop.DueCookiesArePut` | src/client/play.c:610-624 | As soon as there is room for all of them, all cookies due are put: each once, EOF first, after a newline if the last line was partial |
| `PlayLoop.Player.WantsInput` | src/client/play.c:588-595 | Input is wanted exactly when no cookie is due, standard input has not ended or a batch file is read, and there is room |
| `PlayLoop.Player.Exchange` | src/client/play.c:655-675 | What is written is taken from the ring in order, and the calls made for what is received are those of the state machine |
| `PlayLoop.Player.ReadInput` | src/client/play.c:629-653 | What is read enters the stream, and the switches are as in the source for data, the end of input and a failed read; nothing else changes |
| `PlayLoop.Player.EndOfInput` | src/client/play.c:632-650 | The end of standard input makes an EOF cookie due; the end of a batch file switches back to standard input, and an error in it makes an interrupt due |
| `PlayLoop.Player.UpdatePartial` | src/client/play.c:651-652 | partial_line_sent says whether the last byte put is not a newline |
| `PlayLoop.Player.SendInput` | src/client/play.c:501-529 | send_input takes the bytes written from the ring and remembers exactly these, minus carriage returns |
| `PlayLoop.Player.Round` | src/client/play.c:585-675 | A round of the loop does exactly what its phases say: cookies are put; input is read when it was wanted, is ready and still comes from the same file; bytes are written and remembered; output runs through the state machine.  It keeps every cookie at the start of a line, contiguous and on its own; at most one EOF cookie due; partial_line_sent true to its name; bytes put, written and remembered in agreement |
| `PlayLoop.Play` | src/client/play.c:579-675 | So does any number of rounds, one after the other, whatever is read, written and received, until the ring counters are about to wrap around |
| `Cargo.MovesBestAmount` | src/lib/commands/load.c:305-318 | move_amount is possible for both sides, and no possible amount is closer to what the player asked for |
| `Cargo.LoadsAmount` | src/lib/commands/load.c:305-318 | Loading takes what was asked for, as far as it is there and the unit has room |
| `Cargo.UnloadsAmount` | src/lib/commands/load.c:305-318 | Unloading takes what was asked for, as far as the unit has it and the sector has room |
| `Cargo.LevelsAmount` | src/lib/commands/load.c:305-318 | A negative amount asks for what the unit is to hold in the end, and gets it as far as both sides can hold it |
| `Cargo.WriteBackIsTransfer` | src/lib/commands/load.c:174-182 | Writing back copies that passed the re-check moves the goods between the records as they are now, and changes nobody else |
| `Cargo.TransferConserves` | src/lib/commands/load.c:693-694 | A transfer conserves every item and keeps amounts within [0, ITEM_MAX] and the unit's limit |
| `Cargo.WriteBackConserves` | src/lib/commands/load.c:174-182 | Writing back copies conserves an item exactly when the copies account for what the records hold: what the re-checks are for |
| `Cargo.AmountIsTransfer` | src/lib/commands/load.c:801-834 | Answering the prompt for an amount does nothing when the records have changed, moves nothing when the move is not allowed, and else moves exactly the amount due between the records as they are now, or goes on to ask for confirmation of it |
| `Cargo.ConfirmIsTransfer` | src/lib/commands/load.c:689-694 | Yes moves exactly the amount worked out before the prompt if the records have not changed; otherwise nothing happens |
| `Cargo.CommandMoves` | src/lib/commands/load.c:527-694 | A whole command, whatever runs in between: the amount due is moved exactly when both records are still as they were and the player may move the goods |
| `Cargo.StepKeepsOthers` | src/lib/commands/load.c:527-694 | No step of a command touches another command |
| `Cargo.StepConserves` | src/lib/commands/load.c:661-694 | However stale its copies, no step of any command loses or makes goods, or exceeds a limit |
| `Cargo.RunConserves` | src/lib/commands/load.c:305-367 | Over every interleaving of any number of commands, the total of each item stays what it was |
| `Carriers.GiveAway` | src/lib/subs/unitsub.c:567-592 | unit_give_away changes the owner of the unit, and nothing but owners of units (units given to nobody leave their carriers) |
| `Carriers.GivenTogether` | src/lib/subs/unitsub.c:567-592 | Units change hands together with what they carry |
| `Carriers.GivesOnlyBelow` | src/lib/subs/unitsub.c:567-592 | Giving a unit away never reaches its carriers |
| `Carriers.RankedIsAcyclic` | src/lib/commands/load.c:398-426 | A carrier relation that ranks carriers above cargo has no cycles |
| `Carriers.OntoShipKeepsGood` | src/lib/commands/load.c:608-629 | Loading a unit onto a ship keeps all units well placed, capacities held and the relation a forest |
| `Carriers.OntoLandKeepsGood` | src/lib/commands/load.c:918-935 | Loading a unit that carries nothing onto a unit closes no cycle, whatever the carrier is itself loaded on |
| `Carriers.LoadOnShipKeepsGood` | src/lib/commands/load.c:579-629 | One pass of the loop that loads a ship keeps all that |
| `Carriers.LoadOnLandKeepsGood` | src/lib/commands/load.c:896-935 | One pass of the loop that loads a land unit keeps all that, and the carrier's own record |
| `Carriers.UnloadFromShipKeepsGood` | src/lib/commands/load.c:591-650 | Unloading from a ship keeps all that |
| `Carriers.UnloadFromLandKeepsGood` | src/lib/commands/load.c:909-946 | Unloading from a land unit keeps all that, and the carrier's own record |
| `Carriers.Registry.LoadLandShip` | src/lib/commands/load.c:574-659 | The loop over the selected units is the fold the lemmas are about, with its early return when the ship is full |
| `Carriers.Registry.LoadLandLand` | src/lib/commands/load.c:893-954 | The loop over the selected units is the fold the lemmas are about, with its break when the unit is full |
| `Carriers.ShipPassKeepsGood` | src/lib/commands/load.c:574-659 | The whole loop keeps units well placed, capacities held and the relation a forest |
| `Carriers.LandPassKeepsGood` | src/lib/commands/load.c:893-954 | So does the loop for land units, and it leaves the carrier as it was, so the later write-back of the copy loses nothing |
| `Carriers.SelectKeepsGood` | src/lib/commands/load.c:571-659 | From any copies, however stale, the rest of a command including its write-back keeps carriers and cargo in order |
| `Carriers.RunKeepsOk` | src/lib/commands/load.c:527-954 | Over every interleaving of loads, unloads and other commands that keep the order, a unit has at most one carrier, is where its carrier is, and capacities hold |
| `Carriers.NeverCyclic` | src/lib/commands/load.c:859-954 | In every reachable state no unit is carried by itself, directly or through others |
| `Carriers.CargoIsWithItsCarriers` | src/lib/commands/load.c:398-426 | However deep cargo is stacked, it is where each of its carriers is |
| `Carriers.UnloadsSelected` | src/lib/commands/load.c:591-650 | Unloading a ship puts ashore exactly the selected units on it that the player controls (the rule for light units never stops one), and touches no other unit that is not itself cargo of a unit |
| `Carriers.LandUnloadsSelected` | src/lib/commands/load.c:909-946 | Unloading a land unit takes off exactly the selected units on it that the player controls |
| `Carriers.LoadsAllOrFull` | src/lib/commands/load.c:574-659 | Loading a ship loads every selected unit that can be loaded, unless the ship is full in the end |
| `Carriers.LandLoadsAllOrFull` | src/lib/commands/load.c:893-954 | Loading a land unit loads every selected unit that can be loaded, unless the carrier is full in the end |
| `Carriers.BoardersWereSelected` | src/lib/commands/load.c:574-659 | Nothing else is loaded, and a unit loaded changes owner, carrier and fortification only |
| `Carriers.RidersWereSelected` | src/lib/commands/load.c:893-954 | The same for a land unit as carrier |
| `Carriers.AllGoAshore` | src/lib/commands/load.c:591-650 | What unloading makes of every unit: who goes ashore stays where it is, and becomes the sector owner's unless it is a spy |
| `Carriers.AllGetOff` | src/lib/commands/load.c:909-946 | The same for a land unit as carrier |
| `Carriers.CommandBegins` | src/lib/commands/load.c:527-565 | When a command for a carrier gets to its prompt |
| `Carriers.ShipCommand` | src/lib/commands/load.c:566-659 | What becomes of each unit when the player answers: loading and unloading by what the command asked for, nothing when copies are stale |
| `Carriers.LandCommand` | src/lib/commands/load.c:859-954 | The same for a land unit as carrier |
| `Carriers.CommandEnds` | src/lib/commands/load.c:566-659 | That is the end of the command, and changes no other one |
| `Carriers.LoadThenUnload` | src/lib/commands/load.c:527-659 | Unloading undoes loading, except that the unit is no longer fortified |
| `Move.FirstNeighborFinds` | src/lib/commands/move.c:279-305 | The direction loops find a neighbour exactly when there is one that will do |
| `Move.DumpsWellIfAtAll` | src/lib/commands/move.c:276-309 | Goods are dumped exactly when a neighbour is the player's, and with room exactly when one of them has room |
| `Move.MixedBetween` | src/lib/commands/move.c:324-329 | The averages of loyalty and work are between those of the two groups |
| `Move.LostExactlyWhen` | src/lib/commands/move.c:210-316 | Goods that got through are destroyed exactly when the end sector does not take them and home has no room, or home is lost and no neighbour has room |
| `Move.SectorFile.Remove` | src/lib/commands/move.c:159-178 | Goods leave the start sector, at most what is there, and the sector is marked; nothing happens when it has been captured, or in a test move |
| `Move.SectorFile.FindNeighbor` | src/lib/commands/move.c:280-298 | The loop with its n = -1 trick finds the first neighbour that will do |
| `Move.SectorFile.ReadDestination` | src/lib/commands/move.c:211-255 | The checks on the end sector, each falling back to the start sector, choose the end sector exactly when it accepts the goods; a test move is not charged, and writes nothing |
| `Move.SectorFile.FindDump` | src/lib/commands/move.c:279-305 | Both loops together find the place to dump |
| `Move.SectorFile.Fill` | src/lib/commands/move.c:311-329 | What is added is the load cut off at the room left; other fields and items stay, plague spreads, and loyalty and work of arriving civilians end between what they were on either side |
| `Move.SectorFile.Arrive` | src/lib/commands/move.c:210-334 | All branches after the move write what the specification says, in particular on every exit the start sector is written last, with its mark cleared |
| `Move.ArrivedCounts` | src/lib/commands/move.c:262-334 | What arrives is what was on the move less what is lost, and no sector exceeds ITEM_MAX |
| `Move.ArriveBooks` | src/lib/commands/move.c:210-334 | Whatever happened meanwhile, arrival clears the mark on the start sector, and removed equals delivered plus destroyed |
| `Move.TestMoveWritesNothing` | src/lib/commands/move.c:121-258 | Neither step of a test move changes a sector, or destroys anything |
| `Move.TestStepWritesNothing` | src/lib/commands/move.c:121-258 | So no step of a test session changes what other commands see |
| `Move.PrewriteMeans` | src/lib/subs/sect.c:76-103 | What writing a sector does: it is abandoned exactly without people, units and the mark, and without civilians it forgets about them |
| `Move.BeginsExactlyWhen` | src/lib/commands/move.c:69-116 | When a command gets as far as asking for an amount |
| `Move.TakesOffExactlyWhen` | src/lib/commands/move.c:126-178 | Goods leave exactly when the sector is as it was checked, the player owns it, some are asked for and there, and it would not be abandoned; as many as asked for or all there are; a test takes off without any of this but the first and third |
| `Move.AbandonsExactlyWhen` | src/lib/commands/move.c:144-178 | The same after the player has agreed to abandon the sector |
| `Move.ArrivesThere` | src/lib/commands/move.c:184-334 | What the damage on the way has left is added at the landing as far as there is room; all the rest is lost, and no other goods change |
| `Move.CommandGoesOn` | src/lib/commands/move.c:69-334 | Every step of a session is one of these, and no other session notices |
| `Move.StepBalances` | src/lib/commands/move.c:69-334 | Every step keeps the balance: in sectors, on the move, or destroyed |
| `Move.RunBalances` | src/lib/commands/move.c:69-334 | Over every interleaving of moves with each other and with other commands, nothing disappears unaccounted for |
| `Move.MarksKept` | src/lib/commands/move.c:159-178 | A sector is marked only while goods that left it are on the move |
| `Move.TakesWhatWasAsked` | src/lib/commands/move.c:159-175 | The shortfall branch at removal is never taken: the sector has just been checked |
| `Move.TakeOffKeepsOwner` | src/lib/subs/sect.c:88-103 | A marked sector is not abandoned when the last people leave it |
| `Move.LandsThere` | src/lib/commands/move.c:311-333 | Wherever goods land they are added as far as there is room, and no other sector's goods change |
| `Move.DeliversInFull` | src/lib/commands/move.c:235-333 | An end sector that accepts the goods gets all of them, and no other sector's goods change |
| `Move.AbortedMoveReturnsGoods` | src/lib/commands/move.c:210-334 | An aborted move without damage puts the goods back |

## Left out

Fairland:

- Parsing of arguments, printing, map debugging, reading and writing of files, and
  the merging of islands (`DISTINCT_ISLANDS` zero).
- Floating-point rounding: elevations and resources are computed with reals.
- Random numbers are arbitrary numbers in range.  Methods that return what the
  environment decides (`Chance.Roll0`, `ServerCmdResult`, `NextEnv`) have some such value
  in their body; callers know only the contract.  `Chance.Roll0From` is roll0 for a given
  stream of words; that the stream ends the loop is a matter of chance.
- Probabilities other than the counting statements about `roll0`, `grow_one_sector` and
  `place_island`.
- Sector buffers are sequences of sector offsets, not arrays of coordinates; that
  their capacity suffices is part of the contracts (`Capacity`, `MayAdd`).
- The integer width of `own`, `distance` and `closest` is modelled by ranges; `dterr`
  is cut off to a byte as in the source.

Client:

- Sockets, signals, select and files: reads and writes deliver any number of bytes,
  and errors that end the loop end the run.
- Readline, the Windows code, and the copy of input in an auxiliary file.
- What servercmd does, except that it may fail, or switch to a batch file while none
  is read.
- In `Secure` and `PlayLoop` the ring's counters have not wrapped around; `RingBuf` says
  what happens when they have.

Server:

- Printing, mobility, plane transport, option MARKET, and the checks on docks,
  relations and efficiency that come before a command does anything.
- Checks of copies (`check_sect_ok` and the like) compare whole records; cargo lists
  are taken by their definition, the set of units that name the carrier.
- In `Cargo`, the plague spreads as in c_load and c_lload; what else writing a sector may
  do to its owner is arbitrary.  In `Carriers` the plague is left out.
- Movement of carriers is not modelled: other commands may do anything that keeps
  units where their carriers are.
- In `Move`, other commands do not set MOVE_IN_PROGRESS.  expl.c does, and is not part
  of this model.
- In `Move`, what move_ground decides (end sector, cost, damage) is arbitrary, as are
  the outcome of military_control and whether the sector has mobility.
- Changes of a sector's owner to the deity's, beyond abandonment, and the loss of the
  capital that may follow.
