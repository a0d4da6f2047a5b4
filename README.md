# Falling-sand cellular automaton (alchimia) in Dafny

This project models the simulation core of the alchimia falling-sand engine:

- a fixed square grid of 256 × 256 pixels;
- the 16 × 16 chunks of its sleep/wake scheduler;
- the material table;
- the per-pixel update;
- the frame scan;
- the two explosion effects.

It proves properties of that model.

Each pixel has a material type, a colour, a velocity and a set of flags (`is_updated`, `is_falling`, `is_burning`). Each type maps to a record of physical and chemical properties. The phase in that record (solid, liquid or gas) decides who may displace whom.

Every frame scans the rows from the bottom one upwards, each row in a direction a coin flip picks. Each pixel not yet updated:

1. moves (gravity, then the inertial early-out, a diagonal slide, then dispersion);
2. decays if it is burning;
3. reacts with its eight neighbours (boiling, corrosion, ignition, embers);
4. is marked updated.

The frame then clears every mark and copies the colours into the render buffer.

Any cell that moves or burns wakes its chunk. A cell in a chunk's last column or row also wakes the chunk across that edge. A cell in a chunk's second column or row wakes the chunk on its left or upper side, one cell later than the edge itself (see below).

An explosion casts rays from its centre to every integer point of a square's perimeter. Each ray:

- destroys cells, turning each into air or an ember, out to a random blast radius, stopping at titanium or the grid's edge;
- then darkens the solid cells beyond it, out to a random scorch limit.

A second, lattice-based explosion walks integer rays. Its rays share a set of cells already blasted.

## Structure

The modules follow the source files:

| module | file | models |
|---|---|---|
| `Materials` | `materials.dfy` | flags, phases, types, the property record and table, pixels and factories (`pixel.hpp`, `pixel.cpp`) |
| `Lattice` | `lattice.dfy` | constants, row-major indexing, chunk mapping, the wake tests (`world.hpp`, `world.cpp`) |
| `Grid` | `world.dfy` | class `World` holding the pixel, chunk and colour-buffer arrays, with `Set`, `Fill`, `Swap` and `WakeChunkWithPixel` (`tile.cpp`, `world.cpp`) |
| `Movement` | `movement.dfy` | `can_pixel_move_to`, the sub-step path, `is_surrounded`, `sign` (`update.cpp`) |
| `Moves` | `moves.dfy` | `set_adjacent_free_falling`, `move_offset`, `update_pixel_position` (`update.cpp`) |
| `Reactions` | `reactions.dfy` | `update_pixel_attributes`, `affect_neighbours` (`update.cpp`) |
| `Update` | `update.dfy` | `update_pixel`, the lattice `explosion_ray` and `apply_explosion` (`update.cpp`) |
| `Frame` | `frame.dfy` | `tile::simulate` (`tile.cpp`) |
| `Explosion` | `explosion.dfy` | `explosion_ray` and `apply_explosion` (`explosion.cpp`) |
| `Oracle` | `oracle.dfy` | the random draws, as nondeterministic choices within their ranges |

The operations that change the grid are methods on the `World` object and change its arrays in place. Loops are kept as loops. Each method states the new grid as a relation to the old one:

- `Set` and `Swap` give the new array exactly;
- `MoveOffset` returns the draws of its side loosenings and gives the new grid exactly as `MoveGrid` of them. It also relates old and new grid by `MoveOutcome`. Each stage of the position update relates them by `MovedBy`, from the grid with its new velocity;
- the chunks a move marks are exactly `MoveWakes`; those of a whole `UpdatePixel` are exactly `AdvanceWakes`, the union of its three stages' sets;
- `AffectNeighbours` equals the pure function `AffectUpTo`, and the chunks it marks equal `WakesUpTo`;
- `UpdatePixel` gives the new grid by `Updated`, and `Simulate` chains one `Updated` step per visited cell;
- an explosion ray returns the grid between its two phases (`RayDone`):
  - `BlastedOn` relates the old grid to it;
  - `DrawnOn` gives each blasted cell as the ember or air of its returned draw;
  - `ScorchedUpTo` relates it to the new grid, which is exactly `ScorchFold` of it;
  - `ApplyExplosion` chains one of those per ray;
- the lattice explosion relates the grids by `BlastedOn` and `DrawnOn` and states where each ray stopped (`RaysReached`).

Methods whose outcome depends on random draws return those draws as ghost values, so the new grid is given exactly in terms of them. The exception is the stages above `MoveOffset`: they drop its side draws, so their contracts give a side cell only as unchanged or set falling (`Loose`). They are listed under "Left out".

Lemmas then prove what the engine promises about those relations. A recurring promise is that titanium is never destroyed. The rules are stated for any material table `mat`. The titanium guarantees hold for every table satisfying `TitaniumInert`, and `EngineTitaniumInert` shows that the engine's own table does.

Randomness is modelled as methods in `Oracle`. Each returns an arbitrary value in its range:

- `random_unit` gives a value in [0, 1];
- `coin_flip` gives a boolean;
- `random_from_range` gives a value between its bounds;
- `random_normal` gives an arbitrary real.

Where a contract depends on a draw, the method returns the draw as a ghost value and the contract states how the outcome depends on it. The position-update stages above `MoveOffset` are the exception noted above.

Where the code departs from what its comments or its evident design suggest, the model follows the code:

- The left and up wake tests are `(x - 1) % chunk_size == 0`. So the pixel at x = 1 (mod 16) wakes the chunk to its left, not the pixel at x = 0 (mod 16) on the chunk's left edge. `LeftWakeOffByOne` exhibits this.
- The neighbour test in the wake applies the pixel grid's `valid` to chunk coordinates.
- tile.cpp tests and clears a pixel's `updated_this_frame` (tile.cpp:36, 56), a field pixel.h:18 declares. update.cpp tests and sets the `is_updated` flag of pixel.hpp:11 (update.cpp:247, 256). The model has the one flag `IsUpdated` for both, so the frame skips exactly the cells update_pixel marked and clears those marks.
- `set_adjacent_free_falling` wakes the chunk of the left neighbour for both neighbours. At x = 0 it passes x = -1 to the wake, which truncating division places in chunk 0 (`WakeLeftOfGrid`).
- Air's property record is the default except for its corrosion resistance, so its phase is solid. Scorching therefore darkens air and ember cells too.
- pixel.cpp gives lava and acid neighbour closures, while update.cpp drives all reactions from property flags. The model follows update.cpp: lava is a water-boiling burn source and acid is a corrosion source. pixel.cpp's separate `movement` field maps onto phase plus the movable flag:
  - `movable_solid` becomes a movable solid;
  - `immovable_solid` becomes a solid that is not movable;
  - `liquid` becomes a movable liquid;
  - `gas` becomes a movable gas.
- update.cpp reads `can_move_diagonally`, which the property record in pixel.hpp does not declare. The model adds the field with the value false, as for every other field the table leaves at its default. So with the engine's own table the diagonal stage never runs. `Moves.Slide` and `Moves.Spread` state it for any table.
- No entry of the engine's table sets a gravity factor (`EngineTableDormantFields`), so with that table the gravity stage and `set_adjacent_free_falling`'s loosening never change anything. The model states them for any table.

## Model

| member | source | states |
|---|---|---|
| Materials.Bit | src/pixel.hpp:9-14 | each flag names a bit position inside the 64-bit flag set |
| Materials.FlagBitsDistinct | src/pixel.hpp:9-14 | two flags share a bit position only if they are the same flag |
| Materials.Ordinal | src/pixel.hpp:23-40 | the underlying value of a type is below 15, and it is 0 exactly for `none` |
| Materials.OrdinalInjective | src/pixel.hpp:23-40 | distinct types have distinct underlying values |
| Materials.DefaultIsInertSolid | src/pixel.hpp:42-66 | the default record is an immovable solid with no gravity, resistance, transfer, dispersion, reaction flag or fire chance, and corrosion resistance 0.8 |
| Materials.PropertiesOf | src/pixel.cpp:22-126 | the lookup is total, fuse, ember, oil, gunpowder and methane get the default record, dispersion rates are non-negative and corrosion resistance and flammability are probabilities |
| Materials.AirProperties | src/pixel.cpp:25-30 | `none` has the default record with corrosion resistance 1, and so is inert and of the solid phase |
| Materials.MovableSolids | src/pixel.cpp:31-58 | sand, dirt and coal are movable solids with inertial resistance 0.1, 0.4 and 0.95, and coal is the only flammable type |
| Materials.FluidsAndImmovables | src/pixel.cpp:59-119 | water is a liquid dispersing 5, steam a gas dispersing 9 with no corrosion resistance, rock and titanium inert immovable solids, titanium fully corrosion resistant |
| Materials.EngineTitaniumInert | src/pixel.cpp:105-111 | the engine's titanium is an immobile solid that cannot corrode, burn or burn out |
| Materials.EngineTableDormantFields | src/pixel.cpp:22-126 | no entry of the engine's table sets a gravity factor, diagonal movement, a put-out or burn-out chance or the ember source flag |
| Materials.Factory | src/pixel.cpp:128-209 | each factory returns a pixel of the type it names, at rest, whose only possible flag is `is_falling` |
| Materials.FallingFactories | src/pixel.cpp:128-209 | exactly the sand, coal and dirt factories set `is_falling` |
| Lattice.SizeConstants | src/world.hpp:15-19 | the chunk size divides the world size, there are world/chunk chunks per side, and the arrays hold world² cells and chunks² chunks |
| Lattice.IndexRoundTrip | src/world.cpp:22-37 | `Lattice.Valid` is `valid` (0 <= x < width, 0 <= y < height) and `Lattice.Index` the slot of `operator[]`; the slot x + width·y of a valid position lies in the array and maps back to that position |
| Lattice.PosOfRoundTrip | src/world.cpp:27-37 | every slot of the array is the slot of a valid position |
| Lattice.IndexInjective | src/world.cpp:27-37 | two valid positions share a slot only if they are equal |
| Lattice.ChunkRoundTrip | src/world.cpp:39-47 | `Lattice.ChunkIndex` is `get_chunk_index` (num_chunks·y + x) and `Lattice.ChunkPos` is `get_chunk_pos` (index % num_chunks, index / num_chunks); `get_chunk_pos` undoes `get_chunk_index` on valid chunk coordinates, whose index is in range |
| Lattice.ChunkPosRoundTrip | src/world.cpp:39-47 | `get_chunk_index` undoes `get_chunk_pos` on every index below the chunk count |
| Lattice.ChunkOfValid | src/world.cpp:60 | the chunk of a valid pixel is a valid chunk whose square contains the pixel |
| Lattice.WakeNeighboursInRange | src/world.cpp:58-90 | every chunk the wake writes, for any pixel it is called with, is inside the chunk array |
| Lattice.WakeTestsGeometry | src/world.cpp:63-89 | the right/down tests fire exactly on the last column/row of a chunk that has a neighbour that way; the left/up tests fire exactly on the second column/row of a chunk that has a neighbour that way |
| Lattice.WokenChunksGeometry | src/world.cpp:58-90 | a chunk is woken exactly when it is the pixel's own chunk or the neighbour across the edge whose test fired |
| Lattice.LeftWakeOffByOne | src/world.cpp:70-75 | the pixel at x = 16, on chunk 1's left edge, does not wake chunk 0, while the pixel at x = 17 does |
| Lattice.WakeLeftOfGrid | src/world.cpp:58-68 | waking for x = -1 lands in chunk column 0 and also wakes chunk column 1 |
| Lattice.WakeTestsExclusive | src/world.cpp:63-89 | the right and left tests never both fire, nor the down and up tests |
| Lattice.WakesAtMostThree | src/world.cpp:58-90 | a wake marks at most three chunks |
| Grid.Swapped | src/tile.cpp:83-87 | the swapped sequence exchanges the two slots and keeps every other |
| Grid.SwapTwice | src/tile.cpp:83-87 | swapping the same two cells twice restores the grid |
| Grid.SwapSelf | src/tile.cpp:83-87 | swapping a cell with itself changes nothing |
| Grid.World.constructor | src/tile.cpp:21-26 | a new world holds air in every cell, air's colour in every buffer entry and fresh chunks (both flags set) |
| Grid.World.Set | src/tile.cpp:62-66 | `Grid.World.At` reads the slot `Index(p)` of a valid position, as `at` does; the array afterwards is the old one with exactly the slot of the position replaced |
| Grid.World.Fill | src/tile.cpp:68-71 | afterwards every cell equals the given pixel |
| Grid.World.Swap | src/tile.cpp:83-87 | exchanges exactly the two cells and returns the second position |
| Grid.World.Mark | src/world.cpp:61 | sets should_step_next of chunk j and nothing else: the chunks marked so far grow by exactly j |
| Grid.World.WakeNeighbour | src/world.cpp:63-89 | one of the four neighbour tests: the neighbour chunk is marked exactly when the pixel is on that boundary and the neighbour's coordinates pass `valid`, and nothing else changes |
| Grid.World.WakeChunkWithPixel | src/world.cpp:58-90 | sets should_step_next on exactly the woken chunks, clears no flag and leaves should_step and the pixels alone |
| Movement.CanPixelMoveTo | src/update.cpp:29-51 | true exactly when both positions are valid and the destination is empty or the source's phase is denser than the destination's |
| Movement.AdmitsIsRankOrder | src/update.cpp:39-50 | the phase switch is the strict order solid > liquid > gas |
| Movement.KindAdmitsByRank | src/update.cpp:33-50 | a type may enter another exactly when that one is empty or of a lighter phase |
| Movement.NothingEntersSolids | src/update.cpp:39-50 | nothing enters a non-empty solid cell |
| Movement.NoPhaseEntersItself | src/update.cpp:39-50 | no phase displaces its own phase |
| Movement.PathEnds | src/update.cpp:76-81 | the sub-step path starts at the position and its last sub-step reaches position + offset |
| Movement.PathMajorAxis | src/update.cpp:78-81 | along the longer axis each sub-step advances exactly one cell |
| Movement.PathInjective | src/update.cpp:78-81 | the points of the sub-step path are pairwise distinct |
| Movement.SurroundedFromIff | src/update.cpp:102-109 | the remaining loop iterations find no empty in-grid neighbour exactly when none of the remaining neighbours is empty |
| Movement.IsSurroundedIff | src/update.cpp:100-110 | `Movement.IsSurrounded` (the loop over the eight offsets, run by `SurroundedFrom`) is surrounded exactly when no in-grid 8-neighbour is empty, off-grid neighbours ignored |
| Movement.NeighbourOffsetsAreKingMoves | src/update.cpp:18-27 | the offsets are exactly the eight non-zero king moves |
| Movement.Sign | src/update.cpp:112-117 | the sign is -1, 0 or 1, zero exactly for zero, and agrees with its argument |
| Movement.Trunc | src/update.cpp:135 | the float-to-integer conversion truncates toward zero |
| Moves.Loosen | src/update.cpp:59-64 | a side cell in the grid with a gravity factor is set falling when the draw exceeds its inertial resistance and left alone otherwise; no other cell changes |
| Moves.LoosenSide | src/update.cpp:58-66 | under a returned draw in [0, 1] the grid becomes exactly `Loosen` of the old one; the chunks marked are exactly those around the left neighbour when the side cell is in the grid with a gravity factor, and none otherwise |
| Moves.SetAdjacentFreeFalling | src/update.cpp:53-68 | under two returned draws in [0, 1] the grid is the left and then the right neighbour loosened; only those two cells can change, each only by becoming falling when it has a gravity factor; the chunks marked are exactly those around the left neighbour when either side has a gravity factor |
| Moves.Walk | src/update.cpp:80-89 | the mover is swapped forward along the path while each next cell admits it; every pixel passed sits one sub-step back; it stops at the first sub-step off the grid or not admitting the mover; under the returned side draws in [0, 1] the grid is exactly `WalkGrid` of them; the chunks marked are exactly `WalkWakes`, the side wakes of every sub-step on the types its swaps left |
| Moves.MoveOffset | src/update.cpp:72-98 | the mover is swapped forward along the sub-step path while each next cell admits it, every pixel it passed sits one sub-step back, every other cell is as before or set falling as a side cell of a sub-step taken; it stops at the first sub-step off the grid or not admitting it; the result is the last point reached; it moved exactly when a sub-step was taken; a mover that moved is falling; under the returned side draws in [0, 1] the grid is exactly `MoveGrid` of them; the chunks marked are exactly `MoveWakes`: the side wakes of the sub-steps plus, when it moved, those around its new position, so a failed move marks none |
| Moves.Land | src/update.cpp:91-95 | after a move of at least one sub-step the mover is set falling; the grid becomes `MoveGrid` of the walk's draws and `MoveOutcome` holds; the new chunk is marked and the marks grow from `WalkWakes` to `MoveWakes` |
| Moves.StepForward | src/update.cpp:81-88 | one admitted sub-step: the grid becomes exactly `SubStep` (the swap, then the left and the right loosening) under returned draws in [0, 1]; the walk invariant and the types of `Swept` move one sub-step on; the chunks marked are exactly `StepWake` on those types |
| Moves.SwapAndLoosen | src/update.cpp:87-88 | the swap into the next cell and set_adjacent_free_falling there: the grid is `SubStep` of the returned draws, only the two side cells may become falling after the swap, and the chunks marked are exactly `StepWake` of the swapped grid |
| Moves.WalkStateStep | src/update.cpp:80-89 | a sub-step as `StepForward` states it carries the walk state (`Walked`, the types of `Swept`, `WalkGrid` of the draws, `WalkWakes` marked) one sub-step further |
| Moves.SweptStep | src/update.cpp:87 | the swap of the next two path points keeps the grid's types equal to those of `Swept` |
| Moves.LoosenedSameKinds | src/update.cpp:59-64 | setting cells falling changes no cell's type |
| Moves.StepWakeSameKinds | src/update.cpp:58-63 | which chunks a sub-step's loosening wakes depends only on the types in the grid |
| Moves.MoveRelocates | src/update.cpp:72-98 | after a move the mover is at its new position and falling, a move that stayed changed nothing, and titanium survives the move of anything else |
| Moves.MoveKeepsTitanium | src/update.cpp:83-87 | a move of a non-titanium pixel never displaces titanium |
| Moves.MoveReachesTarget | src/update.cpp:80-94 | a move that took every sub-step ends at position + offset with the mover there, falling |
| Moves.ZeroOffsetStays | src/update.cpp:78-97 | a zero offset takes no sub-step and changes nothing |
| Moves.StayedIffStuck | src/update.cpp:78-97 | a move stays put exactly when its offset is zero or its first sub-step is off the grid or refused, and a move that stayed changed nothing |
| Moves.MoveFirst | src/update.cpp:146-151 | the offset moved by is the first unless the first one's first sub-step is refused, then the second; the outcome is that one move_offset from the old grid; it reports a move exactly when the position changed, and with no move the chunks are unchanged; the chunks marked are exactly `MoveWakes` of the move (`WokeBy`) |
| Moves.Fall | src/update.cpp:131-136 | the pixel's velocity becomes its velocity plus gravity factor times gravity step, and the outcome is one move_offset by that velocity truncated toward zero, from the grid with the new velocity; the chunks marked are exactly `MoveWakes` of that move (`WokeBy`) |
| Moves.Slide | src/update.cpp:143-153 | the first offset tried is (-1, dir) or (1, dir), whichever `Oracle.CoinFlip` (any boolean) picks; a move is by the first unless its first sub-step is refused, then by the mirrored one; no move happens only when both are refused, and leaves the grid with the vertical velocity zeroed and the chunks alone; a move marks exactly the chunks `MoveWakes` gives for it (`WokeBy`) |
| Moves.Disperse | src/update.cpp:155-166 | the vertical velocity is zeroed first; the first offset tried is (-dr, 0) or (dr, 0), whichever `Oracle.CoinFlip` picks; the outcome is one move_offset from that grid by the first unless its first sub-step is refused, then by the mirrored one; the chunks marked are exactly `MoveWakes` of that move (`WokeBy`) |
| Moves.Reposition | src/update.cpp:131-166 | a pixel that moved did so by one move_offset with the velocity and offset of the gravity, diagonal or dispersion stage (`StageMove`), the last two only when inertia does not hold it, and arrived falling; a pixel that stayed has exactly `StayVelocity`: its velocity after the gravity stage (accelerated when it has a gravity factor) and, unless inertia holds it, with y zeroed when it slides diagonally or disperses, and nothing else changed; titanium survives the move of anything else; a resting pixel (inertial resistance, not falling, no gravity) and an immobile material do not move at all; a move marks exactly `MoveWakes` of it (`WokeBy`) and staying marks none |
| Moves.Spread | src/update.cpp:143-166 | after the inertial early-out, a move is a diagonal one keeping the velocity or a dispersion one with vertical velocity zeroed (`SpreadMove`); a pixel that stays keeps only its velocity changed, to `SpreadStay`: y zeroed when it slides diagonally or disperses; a material that neither slides nor disperses changes nothing; a move marks exactly `MoveWakes` of it (`WokeBy`) and staying marks none |
| Moves.StayedVelocity | src/update.cpp:131-166 | a pixel that stayed keeps its type, is not falling, and has its velocity after the gravity stage, with y zeroed exactly when inertia does not hold it and its material slides diagonally or disperses |
| Moves.UpdatePixelPosition | src/update.cpp:119-167 | `Repositioned`: the pixel keeps its type and ends falling exactly when its position changed; an unmoved pixel changed only in its falling flag, now clear, and its velocity, now exactly `StayVelocity`; a moved one moved as `StageMove` allows; a resting pixel changes nothing and an immobile one only loses `is_falling`; titanium survives under an inert table; a moved pixel marks exactly `MoveWakes` of its move (`WokeBy`) and an unmoved one marks none |
| Reactions.DecayOutcomes | src/update.cpp:180-193 | a non-burning pixel is untouched; a burning one is kept, put out or turned to air |
| Reactions.DecayByDraws | src/update.cpp:180-193 | `Reactions.Decay` is the attribute update of one pixel under its two draws: a burning pixel burns out exactly when its draw is below its burn-out chance, and otherwise is put out exactly when its draw is below the put-out chance for its surroundings |
| Reactions.DecayKeepsKind | src/update.cpp:189-192 | a material with no burn-out chance keeps its type |
| Reactions.BurningDecay | src/update.cpp:181-193 | the burning pixel becomes its decay under two draws in [0, 1], nothing else changes |
| Reactions.UpdatePixelAttributes | src/update.cpp:170-194 | only the pixel changes, to its decay; a burning pixel wakes exactly its wake chunks, a non-burning one wakes none |
| Reactions.ReactSelf | src/update.cpp:213-221 | the reacting pixel is kept, or turned to air only when it is a corrosion source that ate its neighbour and drew above 0.9 |
| Reactions.ReactInert | src/update.cpp:206-238 | a pixel with no reaction flag that is not burning changes nothing |
| Reactions.IgnitionByDraw | src/update.cpp:223-229 | a neighbour catches fire exactly when the source burns or is a burn source and the draw is below the neighbour's flammability |
| Reactions.CorrosionByDraw | src/update.cpp:213-221 | a corrosion source destroys a non-empty neighbour exactly when the draw exceeds its corrosion resistance |
| Reactions.EmberByDraw | src/update.cpp:231-238 | an ember appears exactly in an empty neighbour of an ember source or burning pixel whose draw is below 0.01 |
| Reactions.WokenIffLit | src/update.cpp:223-238 | for a neighbour that was neither burning nor an ember, its chunks are woken exactly when the reactions leave it burning or an ember |
| Reactions.ReactSparesTitanium | src/update.cpp:206-238 | an inert titanium neighbour is left exactly as it was |
| Reactions.LavaBoilsWater | src/update.cpp:206-211 | lava turns a water neighbour into steam |
| Reactions.AcidCorrodes | src/update.cpp:213-221 | acid turns a non-empty neighbour into air exactly when the draw exceeds its resistance, and leaves it otherwise |
| Reactions.ReactAtFacts | src/update.cpp:201-239 | one neighbour's reactions keep titanium, keep or empty the reacting pixel and touch only the neighbourhood |
| Reactions.AffectNeighboursFacts | src/update.cpp:196-241 | all eight neighbours' reactions together keep titanium, keep or empty the pixel and change nothing outside its neighbourhood |
| Reactions.CorrodeStage | src/update.cpp:213-221 | draws only when the pixel is a corrosion source, in [0, 1], and computes the corrosion the function defines |
| Reactions.IgniteStage | src/update.cpp:223-229 | draws only when the pixel burns or is a burn source, in [0, 1]; computes the ignition; marks exactly the neighbour's wake chunks when it ignited and none otherwise |
| Reactions.SparkStage | src/update.cpp:231-238 | draws only for an empty neighbour of an ember source or burning pixel, in [0, 1]; computes the ember; marks exactly the neighbour's wake chunks when an ember appeared and none otherwise |
| Reactions.StagesCompose | src/update.cpp:206-238 | `Reactions.React` is the body of the neighbour loop for one neighbour: boiling, corrosion, ignition and ember stages run one after another, each with its own draw, compute the combined reaction, whose wake is the ignition's or the ember's |
| Reactions.ReactWith | src/update.cpp:201-239 | the pixel and its in-range neighbour become the reaction's results under draws in [0, 1], nothing else changes, and exactly the neighbour's wake chunks are marked when it ignited or got an ember |
| Reactions.AffectNeighbour | src/update.cpp:201-239 | one iteration leaves the grid as the reactions with that neighbour define, under draws in [0, 1], and marks exactly the chunks those reactions wake (none for an off-grid neighbour) |
| Reactions.AffectNeighbours | src/update.cpp:196-241 | the grid after the loop is `Reactions.AffectUpTo`: the eight reactions in the offset order, with the properties of the pixel's type when the loop began; the chunks marked are exactly the union of the wakes of the eight reactions, each on the grid the earlier ones left |
| Reactions.WakesUpToPrefix | src/update.cpp:200-240 | the chunks woken by the first k reactions depend only on the first k draws |
| Update.DecayKeepsTitanium | src/update.cpp:189-192 | decay never removes titanium under an inert table |
| Update.AffectKeepsTitanium | src/update.cpp:196-241 | neighbour reactions never remove titanium under an inert table |
| Update.Advance | src/update.cpp:251-254 | the grid after the position update is `Repositioned` from the old one, and the final grid is that grid after the decay at the new position and then the eight reactions there, all under draws in [0, 1]; the chunks marked are exactly `AdvanceWakes`: those of the move, those around the new position when the pixel there burns, and those of the eight reactions; titanium is kept under an inert table |
| Update.DecayAndAffect | src/update.cpp:252-254 | the attribute update and then the eight reactions at the new position: the grid is `DecayAndReact` of the old one under draws in [0, 1], the chunks marked are exactly `AttributeWakes` (those around the cell when its pixel burns, then those of the reactions), and titanium is kept under an inert table |
| Update.AdvanceWakesCompose | src/update.cpp:251-254 | the exact marks of the position update and those of `DecayAndAffect` compose into `AdvanceWakes` |
| Update.UpdatePixel | src/update.cpp:245-257 | `Updated`: an empty or already-updated cell changes nothing and marks no chunk; otherwise the grid is the `Advance` outcome with the pixel at its final position marked updated, and the chunks marked are exactly `AdvanceWakes`; titanium is kept under an inert table |
| Update.BlastedKeepsTitanium | src/update.cpp:280-285 | a blast never removes titanium |
| Update.BlastCell | src/update.cpp:283 | a non-titanium cell becomes `Debris(u)` for the returned draw u in [0, 1], an ember below 0.05 and air otherwise; the cells blasted and drawn before stay so, with the new cell and its draw added |
| Update.BlastSparesTitanium | src/update.cpp:280-285 | a cell that is titanium after a blast was not blasted and is as it was |
| Update.BlastedOnTrans | src/update.cpp:291-300 | rays on disjoint new cells compose into one blast on the union |
| Update.DrawOne | src/update.cpp:283 | blasting one more cell under a unit draw adds that draw to the recorded ones |
| Update.DrawnTrans | src/update.cpp:291-300 | a later blast on other cells keeps the draws recorded so far, and the draws of both rays together are recorded in the final grid |
| Update.LatticeRay | src/update.cpp:259-287 | visits the path points in order and skips checked ones; every newly checked cell is a point it passed and held no titanium, and it is now the ember (draw below 0.05) or air of its returned draw in [0, 1] (`DrawnOn`); it stops at the first unchecked invalid or titanium cell |
| Update.LatticeStateStep | src/update.cpp:291-300 | one more ray with the outcome `LatticeRay` promises keeps apply_explosion's state: the checked cells stay blasted and drawn, each lies on a ray taken so far, and the new ray's stop is reached |
| Update.ApplyLatticeExplosion | src/update.cpp:289-301 | every changed cell lies on one of the rays, held no titanium and is now the ember or air of its returned draw in [0, 1]; each ray r has blasted or found checked every point before its returned stop, and a ray that stopped before its end stopped at a cell off the grid or titanium in the old grid; titanium is kept |
| Frame.ScanPointRoundTrip | src/tile.cpp:41-54 | each step of the scan visits a valid position, which is visited at that step |
| Frame.ScanIndexRoundTrip | src/tile.cpp:41-54 | every valid position is visited at some step of the scan |
| Frame.ScanVisitsEachOnce | src/tile.cpp:41-54 | every coordinate is visited at exactly one step |
| Frame.ScanBottomUp | src/tile.cpp:41-42 | a later step is never in a lower row |
| Frame.ScanRowOneWay | src/tile.cpp:43-53 | within a row the scan moves only rightwards or only leftwards, as the coin chose |
| Frame.Visit | src/tile.cpp:35-39 | update_pixel runs exactly for a cell not marked updated, and the grid afterwards is `Updated` from the old one; a marked cell changes nothing |
| Frame.VisitRow | src/tile.cpp:43-53 | the row's cells are visited once each in the chosen direction, and the logged grids run from the old grid to the new with each one the `Updated` outcome of the visit before it |
| Frame.UpdatedAlongJoin | src/tile.cpp:41-54 | the log of one row's updates appended to the log of the rows before is the log of all of them |
| Frame.Simulate | src/tile.cpp:33-60 | the frame visits every cell in the bottom-up scan order, the logged grids chaining its `Updated` visits from the old grid; the final grid is the last logged one with every updated mark cleared; the buffer equals the colours; titanium is kept and chunks are only woken |
| Explosion.StepIsUnit | src/explosion.cpp:19-21 | the larger component of each ray step has magnitude 1 |
| Explosion.RayOffset | src/explosion.cpp:23-31 | after k steps the ray is k steps from its start |
| Explosion.RayGrows | src/explosion.cpp:26 | after k unit steps the squared distance is at least k², so the loops end |
| Explosion.WithinScorchIff | src/explosion.cpp:34-35 | the square-root-free scorch test agrees with length² < (length + extent)² |
| Explosion.BlastPhase | src/explosion.cpp:25-32 | the steps taken are on the grid and within the blast limit; their cells held no titanium and are now the ember (draw below 0.05) or air of the returned draw in [0, 1] for that cell; nothing else changes; a stop within the limit is at titanium |
| Explosion.ScorchPhase | src/explosion.cpp:34-40 | the steps taken are within the scorch limit and the next is not; the grid is exactly `ScorchFold`: each solid cell on those steps, in step order, keeps 0.8 of its colour; so each is at most 0.8 as bright, no type changes and nothing off the path changes |
| Explosion.ScorchCell | src/explosion.cpp:36-38 | a solid-phase cell keeps 0.8 of its colour and any other cell is left alone; nothing else changes |
| Explosion.ScorchCoversStop | src/explosion.cpp:34-35 | with a positive scorch extent the cell where destruction stopped is scorched |
| Explosion.TitaniumScorched | src/explosion.cpp:26-40 | titanium on the scorch path ends at most 0.8 times as bright |
| Explosion.ExplosionRay | src/explosion.cpp:11-41 | `RayDone`: the blast limit is within the radius range; the first `stop` steps are within it, their cells held no titanium and are now the ember or air of their recorded draws, and no other cell changed in the blast phase; destruction stopped at the grid's edge, at the limit or at titanium; the steps from there to `last` are within the reached distance plus the noise (the absolute value of `Oracle.RandomNormal`, any real) and the next one is beyond it; the scorch phase leaves exactly `ScorchFold` of the grid between the phases, each solid cell on those steps keeping 0.8 of its colour; titanium is kept |
| Explosion.RayDoneFacts | src/explosion.cpp:11-41 | a finished ray changes only its own cells, leaves every cell darkened or blasted, keeps titanium, darkens a titanium cell on its scorch path, and with positive noise scorches the titanium cell that stopped it |
| Explosion.EndsOnSquare | src/explosion.cpp:43-53 | every ray end lies on the square of half-side boundary |
| Explosion.EndsCoverSquare | src/explosion.cpp:43-53 | every integer point of that square's perimeter is a ray end |
| Explosion.RaysTo | src/explosion.cpp:47-52 | the four rays of one loop iteration, one per target in order: each extends the log of grids by one `RayDone` step, and every cell stays darkened or blasted from the grid before the explosion |
| Explosion.ApplyExplosion | src/explosion.cpp:43-53 | casts one ray to each end of the square in loop order, the logged grids chaining one `RayDone` per ray from the old grid to the new; every cell is darkened or blasted and titanium is kept |
| Oracle.RandomUnit | src/explosion.cpp:30 | `random_unit()`: any value in [0, 1]; its definition is not part of this model |
| Oracle.RandomFromRange | src/explosion.cpp:25 | `random_from_range(lo, hi)`: any value between the two bounds, in either order |

## Left out

- Rendering, windowing, input, the editor and file I/O are outside the core. The render buffer is written but never read.
- `wake_all_chunks`, `num_awake_chunks` and `is_chunk_awake` are only declared. Their definitions are not part of this model.
- The world constructor's physics engine and player (src/world.cpp:49-56) are external. The model's constructor builds the grid and fresh chunks only.
- `serialise` and the error print in the table's default case are I/O.
- Floating point:
  - reals are exact and there is no rounding;
  - colour is one brightness value, 1.0 from every factory, so `light_noise` and the hex colours are not modelled;
  - gravity times the time step is the parameter `gravityStep`.
- The fuse, ember, oil, gunpowder and methane factories are declared but not defined. Only the ember factory is used, and it is modelled as a fresh ember with no flags.
- Probability claims (for example "ignites with chance = flammability") are not stated. The contracts state how each outcome depends on its draw, except for the side draws dropped above `MoveOffset` (see below).
- `operator[]` and `at` hand out mutable references. The model reads a pixel into a local and writes it back with `Set`. Where the source keeps a reference across a move, it is used only when the pixel did not move, so the two agree.
- In `explosion_ray` of explosion.cpp the titanium `break` is folded into the loop guard. The loop still stops at the same step.
- Explosion.ExplosionRay: the scorch limit `length(curr - start) + |noise|` is compared without the square root. WithinScorchIff shows this test is equivalent for every non-negative length. The normal draw is an arbitrary non-negative extent, not normally distributed.
- Explosion.ApplyExplosion: requires the boundary to be a whole number and at least 1. Any other boundary makes the source's loop never end, or gives a zero-length ray whose step divides by zero.
- Update.ApplyLatticeExplosion: takes the ray ends as a list. The source computes them by clamping each offset to the radius with `glm::length`, a floating-point step not modelled here. The unused strength parameter is dropped.
- Moves.Reposition: states which stage's velocity and offset a move used, not that the earlier stages had their first sub-steps refused. Fall, Slide and Disperse each state their own refusals, so the order is stated stage by stage.
- The side draws of a move. `Moves.MoveOffset`, `Moves.Walk` and `Moves.StepForward` return them, and their grids are exactly `MoveGrid`, `WalkGrid` and `SubStep` of them. The members below do not pass them on. Carrying `MoveGrid` through `MovedBy`, `Repositioned` and `Updated` puts the proofs of the update beyond the verifier's resource limit. So these members state each side cell only as unchanged, or set falling when it has a gravity factor (`Loose` in `MoveOutcome`):
- Moves.MoveFirst: side cells as `Loose`, without their draws.
- Moves.Fall: side cells as `Loose`, without their draws.
- Moves.Slide: side cells as `Loose`, without their draws.
- Moves.Disperse: side cells as `Loose`, without their draws.
- Moves.Spread: side cells as `Loose`, without their draws.
- Moves.Reposition: side cells as `Loose`, without their draws.
- Moves.UpdatePixelPosition: side cells as `Loose`, without their draws.
- Update.Advance: side cells of the move as `Loose`, without their draws.
- Update.UpdatePixel: side cells of the move as `Loose`, without their draws.
- Frame.Visit: side cells of each move as `Loose`, without their draws.
- Frame.VisitRow: side cells of each move as `Loose`, without their draws.
- Frame.Simulate: side cells of each move as `Loose`, without their draws.
