# something-something-farming: the simulation core in Dafny

This project models the simulation core of a small Bevy farming game and proves properties of that model. The pieces modelled are:

- a chunked tile world: 32×32 tiles per chunk, a crop map per chunk, and four preloaded chunks;
- the neighbour addressing and the 16-way autotile selection;
- the crop-growth scheduler, which advances one crop per tick;
- the interaction resolver, which turns hotbar keys, held input and cursor tiles into tool effects on the world;
- the simulation clock, the tile-cursor reconciliation, the inventory counter map, and item ids with their display names.

Every source file in the core has its own module:

| file | module | form |
|---|---|---|
| `options.dfy` | `Options` | the `Option` type used throughout |
| `items.dfy` | `Items` | item ids, tool names, item names, the crop registry with its two hard-coded crops |
| `map_pos.dfy` | `MapPositions` | chunk/tile addresses, `world_pos`, `pos_inside_chunk` |
| `chunk_data.dfy` | `Chunks` | the tile record, walls, `CropData::new`, a pure chunk value, and `class Chunk` over an `array` of 1024 tiles |
| `world_data.dfy` | `Worlds` | `class World` (a map from chunk coordinates to `Chunk` objects), its default built by nested loops, and its mutators |
| `tile_helpers.dfy` | `TileHelpers` | the four neighbour resolvers, the texture table, `determine_texture_index` |
| `update_tile_event.dfy` | `TileEvents` | `UpdateTileEvent` and `surrounding_tiles` |
| `tile_updater.dfy` | `TileUpdater` | `find_next_tile_to_update` (nested loops), the one-crop-per-tick advance, the crop invariant |
| `interaction.dfy` | `Interactions` | hotbar selection, detection with the held-input memo, per-tool resolution, crop deletion, `class InteractionState` |
| `simulation_time.dfy` | `Clock` | `class SimulationTime` and the Running/Paused gate |
| `tile_cursor.dfy` | `TileCursors` | `global_position` and the keep/despawn/spawn reconciliation |
| `inventory.dfy` | `Inventories` | `class Inventory` over a `map` of `u32` counts |

How the source's constructs become Dafny:

- Mutable state is Dafny classes.
  - A `Chunk` keeps its tiles in an `array` and its crops in a `map` field.
  - A `World` keeps a `map` from chunk coordinates to `Chunk` objects, with a ghost footprint.
  - Each mutating method states its new state through a ghost view (`World.View()`, `Chunk.Value()`). The view is a pure map of chunk values that the lemmas reason about.
- The ECS systems become methods over an explicit state:
  - each event writer becomes a returned sequence of events, in the order they are sent;
  - Bevy `Commands` (spawning plant sprites and wall meshes, despawning crop entities) become a returned sequence of `Presentation` notifications;
  - "the chunk is loaded" is a parameter `loaded: set<ChunkPos>`.
- Each system's per-event behaviour is a ghost specification function: `Resolve` and its fold `ResolveAll`, `DeleteCrops`, `AdvanceAt`. Each method is proved to compute exactly that function.
- `f32` times and positions are reals. `f32::MAX`, which `find_next_tile_to_update` uses as its "nothing found" sentinel, is kept as the literal constant `F32Max`.
- A source `unwrap()` or array index that would panic becomes a precondition:
  - the event's chunk exists;
  - the crop id is in the registry;
  - a `u8` stage cannot overflow.
- The world invariant `WorldInvariant` discharges those preconditions for every reachable world:
  - every crop sits on a tilled, in-chunk tile;
  - its stage is below the crop's stage count;
  - it has a due time exactly when it is not terminal.

Behaviours of the code worth noting:

- The held-input memo compares only the local tile coordinate, not the chunk (`MemoIgnoresChunk`).
- An equal tile ends the whole detection pass rather than skipping one cursor.
- A crop is due only when its time is strictly less than the clock.
- The `PlayerAction` enum in src/game/player.rs has no `Hotbar6`. The model follows src/game/interaction.rs, which uses it.
- Several iterations of the code coexist in the sources. The model follows the usage in src/game/interaction.rs:
  - `ActiveTool` is `None | Item(ItemId) | Wall`;
  - tiles carry per-edge walls;
  - `ItemId` has a `Prop` variant.

## Model

| member | source | states |
|---|---|---|
| Items.DebugRegistry | src/load.rs:150-178 | The hard-coded registry holds exactly crops 0 and 1, both with 4 stages, growing 5 and 1 seconds per stage, and it is a valid registry |
| Items.ToolNamesDistinct | crates/data/src/item_id.rs:15-23 | Two tools share a display string ("Hoe", "Pickaxe", "Scythe") only if they are the same tool |
| Items.DecimalLength | crates/data/src/item_id.rs:35-36 | A number below 10 renders as one digit, and a larger number as at least two |
| Items.DecimalInjective | crates/data/src/item_id.rs:35-36 | Different numbers render to different decimal strings |
| Items.ItemLabelInjective | crates/data/src/item_id.rs:32-40 | `Display for ItemId` tells items apart: two labels are equal exactly when the items are equal |
| Items.LabelHead | crates/data/src/item_id.rs:32-40 | Crop labels start with "C", seed labels with "Se", and tool labels with a tool name's first letter |
| Items.LabelNumber | crates/data/src/item_id.rs:35-36 | Two labels with the same prefix and the ids rendered in decimal are equal only for equal ids |
| Items.SeedNameExtendsCropName | crates/data/src/item_id.rs:43-51 | `item_name` of a crop is its registry name, of a seed the crop's registry name followed by " Seed", and of every tool its display string |
| Items.DebugItemNamesDistinct | crates/data/src/item_id.rs:43-51 | With the hard-coded registry, two nameable items have the same `item_name` exactly when they are the same item |
| MapPositions.WorldPosIsChunkOriginPlusLocal | src/game/map_pos.rs:20-34 | `world_pos(y)` is the chunk origin (chunk × 32) plus `pos_inside_chunk(y)` on x and z, its height is y, and `pos_inside_chunk` does not depend on the chunk |
| MapPositions.WorldPosInjective | src/game/map_pos.rs:20-26 | Two in-chunk addresses with the same world position are the same address |
| MapPositions.AxisInjective | src/game/map_pos.rs:22-24 | One axis of `world_pos` determines the chunk and local coordinates on that axis |
| Chunks.Walls.SetAt | src/game/interaction.rs:238-242 | Setting one edge's wall flag gives that edge the new value and leaves the other three edges alone |
| Chunks.NewCrop | src/game/world_data/chunk_data.rs:20-30 | A new crop has stage 0, the definition's crop id, and is due exactly `growth_time_per_stage` after the current time |
| Chunks.IndexBijection | src/game/world_data/chunk_data.rs:33-38 | `x + y*32` is in bounds for in-chunk coordinates, different coordinates give different indices, and every index in 0..1024 comes from the coordinates `(i % 32, i / 32)` |
| Chunks.ChunkValue.SetAt | src/game/world_data/chunk_data.rs:45-47 | After `set_at(x, y, v)` the tile at (x, y) has `is_tilled == v` with its ground type and walls kept, every other tile is unchanged, and the crop map is unchanged |
| Chunks.ChunkValue.PutAt | src/game/world_data/chunk_data.rs:36-38 | Writing through `at_mut` replaces exactly the tile at `x + y*32` and leaves the other tiles and the crop map unchanged |
| Chunks.EmptyChunkIsDefault | src/game/world_data/chunk_data.rs:53-60 | Every tile of a default chunk is `TileData::default()` (grass, untilled, no walls), and its crop map is empty |
| Chunks.SetAtThenUnset | src/game/world_data/chunk_data.rs:45-50 | Tilling a tile and then untilling it is the same as untilling it: the tile ends untilled and the crops are untouched |
| Chunks.Chunk.Default | src/game/world_data/chunk_data.rs:53-60 | `ChunkData::default()` allocates a fresh tile array whose contents are the default chunk |
| Chunks.Chunk.At | src/game/world_data/chunk_data.rs:33-35 | `at(x, y)` reads the tile array at `x + y*32` |
| Chunks.Chunk.AtPos | src/game/world_data/chunk_data.rs:39-41 | `at_pos(p)` is `at(p.x, p.y)` |
| Chunks.Chunk.AtMut | src/game/world_data/chunk_data.rs:36-38 | Writing through `at_mut(x, y)` changes the chunk as `PutAt(x, y, t)` says |
| Chunks.Chunk.AtPosMut | src/game/world_data/chunk_data.rs:42-44 | `at_pos_mut(p)` is `at_mut(p.x, p.y)` |
| Chunks.Chunk.SetAt | src/game/world_data/chunk_data.rs:45-47 | `set_at` updates the array in place, giving the chunk value that `ChunkValue.SetAt` describes |
| Chunks.Chunk.SetAtPos | src/game/world_data/chunk_data.rs:48-50 | `set_at_pos(p, v)` is `set_at(p.x, p.y, v)` |
| Worlds.SetTilledIn | src/game/world_data/chunk_data.rs:45-50 | Setting a tile's tilled flag in the world changes that flag only. Only the tiles sharing its flat array slot change; crops and the chunk set are unchanged |
| Worlds.PutTileIn | src/game/interaction.rs:236-242 | Writing a tile into the world changes only the tiles sharing its slot, and leaves crops and the chunk set alone |
| Worlds.WithCrop | src/game/interaction.rs:276-279 | Inserting a crop puts it at exactly that address; every other crop, every tile and the chunk set are unchanged |
| Worlds.WithoutCrop | src/game/interaction.rs:170-171 | Removing a crop clears exactly that address; every other crop, every tile and the chunk set are unchanged |
| Worlds.DefaultViewShape | src/game/world_data/mod.rs:23-39 | The default world has exactly the four chunks {-1,0}², each tile default and untilled, and no crop anywhere |
| Worlds.AddDefaultChunk | src/game/world_data/mod.rs:31-33 | Inserting a freshly allocated default chunk under a new key keeps all inserted chunks default and pairwise separate |
| Worlds.World.Default | src/game/world_data/mod.rs:23-39 | The nested loops over [-1, 0] × [-1, 0] build a valid world whose view is the default world |
| Worlds.World.InsertRow | src/game/world_data/mod.rs:30-34 | One pass of the inner loop adds the row's two keys, each with a freshly allocated default chunk, and keeps all chunks separate |
| Worlds.World.SetAtPos | src/game/world_data/chunk_data.rs:48-50 | Setting the tilled flag through the world changes its view as `SetTilledIn` says, and keeps the chunk objects |
| Worlds.World.PutTile | src/game/interaction.rs:236-242 | Writing a tile through the world changes its view as `PutTileIn` says |
| Worlds.World.InsertCrop | src/game/interaction.rs:276-279 | Inserting a crop through the world changes its view as `WithCrop` says |
| Worlds.World.RemoveCrop | src/game/interaction.rs:170-171 | Removing a crop through the world changes its view as `WithoutCrop` says |
| Worlds.DefaultWorld | src/game/world_data/mod.rs:29-37 | Four separate default chunks under the preloaded keys make a valid world whose view is the default world |
| TileHelpers.LeftOf | src/game/tilemap/helpers.rs:4-13 | The left neighbour stays in range and is one column left in absolute coordinates, crossing into chunk x-1 at local x = 0 |
| TileHelpers.RightOf | src/game/tilemap/helpers.rs:15-24 | The right neighbour stays in range and is one column right, crossing into chunk x+1 at local x ≥ 31 |
| TileHelpers.BelowOf | src/game/tilemap/helpers.rs:26-35 | The lower neighbour stays in range and is one row down, crossing into chunk y-1 at local y = 0 |
| TileHelpers.TopOf | src/game/tilemap/helpers.rs:37-46 | The upper neighbour stays in range and is one row up, crossing into chunk y+1 at local y ≥ 31 |
| TileHelpers.GlobalInjective | src/game/tilemap/helpers.rs:4-46 | Absolute coordinates determine an in-chunk address |
| TileHelpers.AxisUnique | src/game/tilemap/helpers.rs:4-46 | On one axis, `chunk*32 + local` with local < 32 determines both parts |
| TileHelpers.NeighbourRoundTrips | src/game/tilemap/helpers.rs:4-46 | For in-range tiles, right of left, left of right, top of below, and below of top all return the original address |
| TileHelpers.EdgeCode | src/game/tilemap/helpers.rs:107-157 | The code of a pair of opposite neighbours is below 4, is 0 exactly when neither is tilled and 2 exactly when both are |
| TileHelpers.EdgeCodeInjective | src/game/tilemap/helpers.rs:107-157 | Different neighbour pairs get different codes |
| TileHelpers.TextureIndexFor | src/game/tilemap/helpers.rs:107-157 | The texture table gives an index below 16, with the up/down code as the row and the left/right code as the column |
| TileHelpers.TextureIndexBijective | src/game/tilemap/helpers.rs:48-157 | The table is a bijection from the 16 neighbour combinations onto 0..15; `index / 4` depends only on (up, down) and `index % 4` only on (left, right) |
| TileHelpers.TextureIndexCorners | src/game/tilemap/helpers.rs:107-157 | No tilled neighbour gives 0, all four give 10, right only gives 1, up only gives 12 |
| TileHelpers.TilledIn | src/game/tilemap/helpers.rs:57-105 | Reading a neighbour flag through the world objects yields the flag of the world's view, and false when the chunk is absent |
| TileHelpers.DetermineTextureIndex | src/game/tilemap/helpers.rs:52-158 | The chosen index is below 16 and is the table entry for the tilled flags of the four neighbours. At an edge the flag is read from the adjacent chunk at the mirrored coordinate, and an absent chunk counts as untilled |
| TileEvents.SurroundingTiles | src/game/tilemap/update_tile_event.rs:29-48 | Exactly four events, in the order left, right, top, bottom. Each is one step away in absolute coordinates and in range |
| TileEvents.SurroundingTilesAreTheNeighbours | src/game/tilemap/update_tile_event.rs:37-48 | For an in-range tile the four events are pairwise distinct, none is the tile itself, and an in-range address is among them exactly when it is adjacent |
| TileUpdater.FindNextTileToUpdate | src/game/tile_updater.rs:67-85 | The scan returns nothing exactly when no crop is due before `f32::MAX`. Otherwise it returns a pending crop whose due time is the minimum over all pending crops |
| TileUpdater.UpdateTiles | src/game/tile_updater.rs:21-65 | A crop advances exactly when some crop is due strictly before now; then exactly the earliest one advances and nothing else changes. Nothing changes when none is due. A sprite advance is reported exactly when that crop's chunk is loaded |
| TileUpdater.DueExactly | src/game/tile_updater.rs:33-34 | The minimal pending crop is before now exactly when some pending crop is due before now |
| TileUpdater.AdvanceCropAt | src/game/tile_updater.rs:36-53 | The crop at the address gets stage + 1, and is rescheduled at now plus the growth time or made terminal, as `AdvanceAt` says |
| TileUpdater.InvariantAllowsAdvance | src/game/tile_updater.rs:36-45 | In a world satisfying the crop invariant, the `unwrap`s and the `u8` increment of the advance cannot fail |
| TileUpdater.AdvanceCropKeepsInvariant | src/game/tile_updater.rs:45-53 | An advanced pending crop keeps the invariant: its stage goes up by one, and it is due at now + growth time exactly when the new stage is below `stages - 1` |
| TileUpdater.AdvanceKeepsWorldInvariant | src/game/tile_updater.rs:33-63 | Advancing a pending crop keeps the world invariant and changes no other crop and no tile |
| TileUpdater.TerminalNeverPending | src/game/tile_updater.rs:72 | A crop at its last stage has no due time, so the scan never selects it |
| TileUpdater.FourStageCropLifecycle | src/game/tile_updater.rs:45-53 | A 4-stage crop reaches stage 3 with no due time after exactly three advances |
| TileUpdater.NewCropKeepsInvariant | src/game/world_data/chunk_data.rs:20-30 | A freshly planted crop satisfies the crop invariant |
| TileUpdater.DefaultWorldSatisfiesInvariant | src/game/world_data/mod.rs:23-39 | The default world, with the hard-coded crops, satisfies the world invariant, so the invariant lemmas apply from the game's first frame |
| Interactions.HotbarSlots | src/game/interaction.rs:74-92 | Slots 1..6 are Hotbar1..Hotbar6 and map to Hoe, Pickaxe, Scythe, Seed 0, Seed 1 and Wall |
| Interactions.SelectedTool | src/game/interaction.rs:64-93 | The lowest just-pressed hotbar slot picks the tool. With no just-pressed slot, or no action state, the tool is unchanged |
| Interactions.DetectFromShape | src/game/interaction.rs:141-158 | The detection pass emits one event per visited cursor, for a prefix of the cursors, with consecutive local tiles distinct. The memo becomes the last emitted tile, and the pass stops at the first cursor equal to the memo |
| Interactions.DetectFromStep | src/game/interaction.rs:141-158 | A cursor equal to the memo ends the pass with no events; otherwise it emits its event and continues with the memo set to its tile |
| Interactions.Detect | src/game/interaction.rs:118-159 | No events and an unchanged memo unless Interact is pressed. A just-pressed Interact clears the memo, so the first cursor is emitted. At most one event per cursor, each for its cursor with the active tool and rotation |
| Interactions.HeldInputOverABBA | src/game/interaction.rs:133-158 | Held over the cursor frames A, A, B, B, A, frames 1, 3 and 5 each report their cursor and frames 2 and 4 report nothing: three events in all |
| Interactions.SingleCursor | src/game/interaction.rs:141-158 | With one cursor, the pass emits it exactly when its tile differs from the memo |
| Interactions.MemoIgnoresChunk | src/game/interaction.rs:123-143 | Two addresses with the same local tile in different chunks are treated as the same tile: the second press-and-hold frame emits nothing |
| Interactions.CanResolvePrefix | src/game/interaction.rs:229 | If a sequence of events can be resolved without a panic, so can each of its prefixes |
| Interactions.ResolveKeepsInvariant | src/game/interaction.rs:229-369 | In a world satisfying the invariant, an addressable event resolves without panicking, keeps the chunk set, and keeps the invariant |
| Interactions.ResolveAllKeepsInvariant | src/game/interaction.rs:229-369 | The same holds for any sequence of addressable events |
| Interactions.HoeEffect | src/game/interaction.rs:308-326 | Hoe tills an untilled tile, keeping its ground type and the crops; its only output is the update events for the tile and then its four neighbours, sent only when the chunk is loaded. On a tilled tile it does nothing |
| Interactions.PickaxeEffect | src/game/interaction.rs:327-348 | Pickaxe does nothing on an untilled tile, emits exactly one destroy event when a crop is present (the tile stays tilled), and otherwise untills the tile, keeping the crops, with the update events for the tile and its four neighbours as its only output when loaded |
| Interactions.RetextureEventsAreTheTileAndItsNeighbours | src/game/interaction.rs:318-325 | For an in-range tile the five update events are distinct: the tile itself first, then exactly the tiles adjacent to it |
| Interactions.ScytheHarvestsExactlyTerminalCrops | src/game/interaction.rs:349-363 | Scythe emits a harvested event then a destroyed event exactly when a crop is present with `stage + 1 >= stages`. Otherwise it emits nothing, and it never changes the world |
| Interactions.SeedEffect | src/game/interaction.rs:265-306 | A seed plants `CropData::new` only on a tilled tile without a crop, leaving other crops and the tile alone; its only output is a plant sprite at the position inside the chunk lifted 0.1 on z, when the chunk is loaded. Otherwise it does nothing |
| Interactions.WallEffect | src/game/interaction.rs:232-256 | Wall sets the edge facing the rotation and leaves the other edges, the tilled flag and the crops alone; its only output is a wall spawn when the chunk is loaded. On an edge already set it does nothing |
| Interactions.InertToolsDoNothing | src/game/interaction.rs:231-264 | No tool, a crop item and a prop item change nothing and emit nothing |
| Interactions.DeleteCrops | src/game/interaction.rs:161-182 | Deleting crops never changes the chunk set |
| Interactions.DeleteCropsShape | src/game/interaction.rs:167-181 | After the destroy events, no crop remains at any event address, every other crop and every tile is unchanged |
| Interactions.DeleteCropsKeepsInvariant | src/game/interaction.rs:167-181 | Crop deletion keeps the world invariant |
| Interactions.PickaxeThenDeleteClearsCrop | src/game/interaction.rs:161-182 | A pickaxe on a planted tile leaves the tile tilled. The destroy event it emits then removes the crop |
| Interactions.ProcessDeleteCrops | src/game/interaction.rs:161-182 | The loop over destroy events changes the world and emits despawns as `DeleteCrops` says |
| Interactions.ResolveOne | src/game/interaction.rs:229-368 | Resolving one event in place changes the world and emits outputs as `Resolve` says |
| Interactions.ProcessTileInteractions | src/game/interaction.rs:215-369 | The loop over interaction events changes the world and emits outputs as the fold `ResolveAll` says |
| Interactions.InteractionState.constructor | src/game/interaction.rs:64-123 | The resolver starts with no tool, rotation north and an empty memo |
| Interactions.InteractionState.SelectActiveTool | src/game/interaction.rs:64-93 | The resource's tool becomes `SelectedTool` of the old tool; nothing else changes |
| Interactions.InteractionState.DetectTileInteractions | src/game/interaction.rs:118-159 | The loop emits the events and leaves the memo as `Detect` says; the tool and rotation are unchanged |
| Clock.Step | src/game/simulation_time.rs:8-29 | While paused a frame changes nothing. While running the delta is the frame time times the scale and the elapsed time grows by exactly that delta. The scale never changes |
| Clock.RunAccumulates | src/game/simulation_time.rs:26-29 | Over any frames the elapsed time grows by the scaled time of the running frames; with non-negative frame times and scale it never decreases |
| Clock.PausedFramesChangeNothing | src/game/simulation_time.rs:8 | Any number of paused frames leave the clock unchanged |
| Clock.SimulationTime.Default | src/game/simulation_time.rs:31-38 | The default clock has delta 0, elapsed 0, scale 1 |
| Clock.SimulationTime.Update | src/game/simulation_time.rs:26-29 | `update` sets the fields as one running `Step` |
| Clock.SimulationTime.Frame | src/game/simulation_time.rs:8-29 | One frame with the state gate changes the fields as `Step` does for that state |
| TileCursors.GlobalPosition | src/game/tilemap/tile_cursor.rs:35-40 | The global position is `chunk*32 + tile` on both axes and equals the x and z of `world_pos(0.0)` |
| TileCursors.GlobalPositionInjective | src/game/tilemap/tile_cursor.rs:35-40 | Two cursors on in-range tiles with the same global position mark the same tile |
| TileCursors.MarksExtend | src/game/tilemap/tile_cursor.rs:72-78 | Visiting one more existing cursor adds exactly that cursor's tile to the visited positions |
| TileCursors.Unmarked | src/game/tilemap/tile_cursor.rs:80-106 | The entries to spawn contain exactly the selected tiles no kept cursor marks, and are no more than the selection |
| TileCursors.UpdateTileCursor | src/game/tilemap/tile_cursor.rs:71-106 | An existing cursor is despawned exactly when its tile is not selected and kept otherwise. One cursor is spawned per selection entry, in order, that no kept cursor marks, so repeated entries spawn repeatedly. Kept plus new cursors cover exactly the selected tiles |
| Inventories.Count | src/game/inventory.rs:32-38 | The count of an item never added is 0 |
| Inventories.Added | src/game/inventory.rs:24-29 | Adding gives the item its old count plus the amount, leaves every other item's count alone, and always creates an entry for the item |
| Inventories.AddedIsNotEmpty | src/game/inventory.rs:20-29 | After any `add_item`, even of 0, the inventory is not empty |
| Inventories.Inventory.Default | src/game/inventory.rs:5-8 | The default inventory holds no items |
| Inventories.Inventory.IsEmpty | src/game/inventory.rs:20-22 | The inventory is empty exactly when no item has an entry, so every count is 0 |
| Inventories.Inventory.ItemCount | src/game/inventory.rs:32-38 | `item_count` is the stored count, or 0 |
| Inventories.Inventory.AddItem | src/game/inventory.rs:24-29 | `add_item` replaces the map as `Added` says |

## Left out

- Rendering and presentation are not modelled: materials, sprites, meshes, transforms, the tilemap, the camera, the UI and lighting. So is the material-swapping system that consumes `UpdateTileEvent`s. Spawning and despawning are abstract `Presentation` notifications; the plant sprite keeps only its translation (`pos_inside_chunk(0.0)` moved 0.1 along z).
- `process_harvested_crops` (src/game/interaction.rs:184-213) is not modelled: it only spawns a drop sprite for a harvested crop, or logs an error. The harvest events that feed it are modelled.
- Wall placement on a loaded chunk always emits a `SpawnWall` notification. The source additionally needs the tile's render entity to exist; that render mirror (src/game/tilemap/loaded_chunks.rs) is not part of this model.
- TileUpdater.UpdateTiles: reports a sprite advance whenever the advanced crop's chunk is loaded. The source also needs that chunk's crop entity and its sprite component to exist; that render mirror is not part of this model.
- Crop deletion in a loaded chunk always emits a `DespawnCrop` notification. The source's warning when no sprite entity was registered is not modelled.
- `f32` rounding is not modelled, because times and positions are reals. `f32::MAX` is kept as a literal as the scan's sentinel.
- `i32` overflow of chunk coordinates and `u32` overflow of local tile coordinates are not modelled, because the integers are unbounded. Only `u8` stages and `u32` inventory counts are bounded.
- Bevy's `HashMap` iteration order is unspecified. The scan picks with `:|`, so which of several equal-minimum crops is chosen is not stated.
- The ray cast that builds a frame's cursor selection, input-device plumbing, and the missing-`ActionState` error log are not modelled. The selection and the action state are parameters.
- Bevy ECS scheduling is not modelled. Each system is a method that the caller runs in the source's order.
- Items.ItemLabel: has no `Prop` arm, because `Display for ItemId` (crates/data/src/item_id.rs:32-40) has none.
- Items.ItemName: has no `Prop` arm, because `item_name` (crates/data/src/item_id.rs:43-51) has none.
- TileHelpers.DetermineTextureIndex: requires the tile to be in range. The source also reads out-of-range local coordinates, which alias other tiles through the flat index.
- TileUpdater.UpdateTiles: requires `CanAdvance`, meaning that every crop the scan may select (an earliest pending crop, due before now) has its id in the registry, a `u8` stage that can be incremented and at least one stage. The source panics on the selected crop otherwise. `InvariantAllowsAdvance` shows that every world satisfying the crop invariant meets this.
- Interactions.ProcessTileInteractions: requires `CanResolveAll`, meaning that every event's chunk exists and every registry lookup succeeds, as the source's `unwrap`s demand. `ResolveAllKeepsInvariant` shows that addressable events in an invariant world meet it.
- Inventories.Inventory.AddItem: requires that the `u32` sum does not overflow. Debug builds panic there, and the wrap-around of release builds is not modelled.
- The `Walls` type is not part of the sources. It is modelled as four booleans, one per cardinal direction, all false by default.
- The `ActiveTool` definition that interaction.rs uses is not part of the sources. `NoTool` is taken as its default.
- The accessors `delta_seconds`, `scale` and `elapsed` are modelled as functions returning the fields. Their trivial contracts carry no rows.
