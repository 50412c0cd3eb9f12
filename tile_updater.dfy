/**
 * The crop-growth scheduler (src/game/tile_updater.rs): each tick, the crop
 * with the earliest pending stage time is found by a linear scan, and
 * advanced by one stage if that time has passed.
 */
module TileUpdater {
  import opened Options
  import opened Items
  import opened MapPositions
  import opened Chunks
  import opened Worlds

  /** `f32::MAX`, the scan's initial "lowest time found". */
  const F32Max: real := 340282346638528859811704183484516925440.0

  /** `NextItemToUpdate`: when the next growth step is due, and where. */
  datatype NextItemToUpdate = NextItemToUpdate(updateAt: real, pos: MapPos)

  /** A crop at `p` waits for its next stage at time `t`. */
  predicate Pending(v: WorldView, p: MapPos, t: real) {
    CropAt(v, p).Some? && CropAt(v, p).value.nextStageAt == Some(t)
  }

  /**
   * `n` is a crop whose pending time is the least of all pending times (and
   * below the scan's `f32::MAX` sentinel).
   */
  ghost predicate IsNextDue(v: WorldView, n: NextItemToUpdate) {
    && Pending(v, n.pos, n.updateAt)
    && n.updateAt < F32Max
    && forall p, t | Pending(v, p, t) :: n.updateAt <= t
  }

  /**
   * `find_next_tile_to_update`: scans every crop of every chunk and keeps the
   * first one with a strictly smaller pending time than the best so far.
   * Map iteration order is left open, so among equal minima any may be chosen.
   */
  method FindNextTileToUpdate(world: World) returns (next: Option<NextItemToUpdate>)
    requires world.Valid()
    ensures next.None? <==> forall p, t | Pending(world.View(), p, t) :: t >= F32Max
    ensures next.Some? ==> IsNextDue(world.View(), next.value)
  {
    ghost var v := world.View();
    var lowest := F32Max;
    next := None;
    var todo := world.chunks.Keys;
    while todo != {}
      invariant todo <= world.chunks.Keys
      invariant next.None? ==> lowest == F32Max
      invariant next.Some? ==> next.value.updateAt == lowest && lowest < F32Max && Pending(v, next.value.pos, lowest)
      invariant forall p, t | Pending(v, p, t) && p.chunk !in todo :: lowest <= t
      decreases todo
    {
      var chunkPos :| chunkPos in todo;
      var crops := world.chunks[chunkPos].crops;
      assert v[chunkPos].crops == crops;
      var tiles := crops.Keys;
      while tiles != {}
        invariant tiles <= crops.Keys
        invariant next.None? ==> lowest == F32Max
        invariant next.Some? ==> next.value.updateAt == lowest && lowest < F32Max && Pending(v, next.value.pos, lowest)
        invariant forall p, t | Pending(v, p, t) && (p.chunk !in todo || (p.chunk == chunkPos && p.tile !in tiles)) :: lowest <= t
        decreases tiles
      {
        var tilePos :| tilePos in tiles;
        var crop := crops[tilePos];
        if crop.nextStageAt.Some? {
          var remainingTime := crop.nextStageAt.value;
          if lowest > remainingTime {
            lowest := remainingTime;
            next := Some(NextItemToUpdate(remainingTime, MapPos(chunkPos, tilePos)));
          }
        }
        tiles := tiles - {tilePos};
      }
      todo := todo - {chunkPos};
    }
  }

  /**
   * A crop in a consistent state: its definition exists, its stage is below
   * the definition's stage count, and it is pending exactly while it has not
   * reached the last stage.
   */
  predicate CropInvariant(crop: CropData, reg: Registry) {
    && crop.cropId in reg
    && crop.stage < reg[crop.cropId].stages
    && (crop.nextStageAt.None? <==> crop.stage == reg[crop.cropId].stages - 1)
  }

  /**
   * The world invariant the simulation keeps: every chunk has its 1024 tiles,
   * and every crop stands on a tilled in-chunk tile and is consistent.
   */
  ghost predicate WorldInvariant(v: WorldView, reg: Registry) {
    && ValidRegistry(reg)
    && ValidView(v)
    && forall p | CropAt(v, p).Some? ::
         && InChunk(p.tile) && HasTile(v, p) && TileAt(v, p).isTilled
         && CropInvariant(CropAt(v, p).value, reg)
  }

  /** The growth step of `update_tiles`: one stage further, rescheduled from `now` or made terminal. */
  function AdvanceCrop(crop: CropData, def: CropDefinition, now: real): CropData
    requires crop.stage < 255
  {
    var stage := crop.stage + 1;
    crop.(stage := stage,
          nextStageAt := if stage < def.stages - 1 then Some(now + def.growthTimePerStage as real) else None)
  }

  /** The world after the crop at `p` advanced by one step. */
  function AdvanceAt(v: WorldView, p: MapPos, now: real, reg: Registry): WorldView
    requires CropAt(v, p).Some? && CropAt(v, p).value.cropId in reg && CropAt(v, p).value.stage < 255
  {
    var crop := CropAt(v, p).value;
    WithCrop(v, p, AdvanceCrop(crop, reg[crop.cropId], now))
  }

  /**
   * What `update_tiles` needs of the crop the scan may select and advance (any
   * earliest pending crop, due before `now`): its definition exists, `stage += 1`
   * fits a `u8`, and `stages - 1` does not underflow.
   */
  ghost predicate CanAdvance(v: WorldView, now: real, reg: Registry) {
    forall n | IsNextDue(v, n) && n.updateAt < now ::
      var crop := CropAt(v, n.pos).value;
      crop.cropId in reg && crop.stage < 255 && reg[crop.cropId].stages >= 1
  }

  /**
   * `update_tiles`: if the earliest pending crop is due strictly before `now`,
   * advance it and return it; otherwise change nothing. `spriteAdvanced` is
   * the presentation side effect (the crop's sprite moves to its next frame)
   * that happens only when the crop's chunk is loaded.
   */
  method UpdateTiles(world: World, now: real, reg: Registry, loaded: set<ChunkPos>)
    returns (advanced: Option<NextItemToUpdate>, spriteAdvanced: bool)
    requires world.Valid() && CanAdvance(world.View(), now, reg)
    modifies world.Repr
    ensures world.Valid() && world.Repr == old(world.Repr) && world.chunks == old(world.chunks)
    ensures advanced.None? <==> forall p, t | Pending(old(world.View()), p, t) :: t >= now || t >= F32Max
    ensures advanced.None? ==> world.View() == old(world.View())
    ensures advanced.Some? ==>
      && IsNextDue(old(world.View()), advanced.value) && advanced.value.updateAt < now
      && world.View() == AdvanceAt(old(world.View()), advanced.value.pos, now, reg)
    ensures spriteAdvanced <==> advanced.Some? && advanced.value.pos.chunk in loaded
  {
    advanced, spriteAdvanced := None, false;
    var next := FindNextTileToUpdate(world);
    DueExactly(world.View(), next, now);
    if next.Some? && next.value.updateAt < now {
      AdvanceCropAt(world, next.value, now, reg);
      advanced := next;
      spriteAdvanced := next.value.pos.chunk in loaded;
    }
  }

  /** The scan's result is due before `now` exactly when some pending time lies before both `now` and `f32::MAX`. */
  lemma DueExactly(v: WorldView, next: Option<NextItemToUpdate>, now: real)
    requires next.None? <==> forall p, t | Pending(v, p, t) :: t >= F32Max
    requires next.Some? ==> IsNextDue(v, next.value)
    ensures (next.Some? && next.value.updateAt < now) <==> !(forall p, t | Pending(v, p, t) :: t >= now || t >= F32Max)
  {
    if next.Some? && next.value.updateAt < now {
      assert Pending(v, next.value.pos, next.value.updateAt);
    }
  }

  /** The in-place growth step on the crop `next` names (`crop.stage += 1` and the new `next_stage_at`). */
  method AdvanceCropAt(world: World, next: NextItemToUpdate, now: real, reg: Registry)
    requires world.Valid() && CanAdvance(world.View(), now, reg)
    requires IsNextDue(world.View(), next) && next.updateAt < now
    modifies world.Repr
    ensures world.Valid() && world.Repr == old(world.Repr) && world.chunks == old(world.chunks)
    ensures world.View() == AdvanceAt(old(world.View()), next.pos, now, reg)
  {
    var pos := next.pos;
    var crop := world.chunks[pos.chunk].crops[pos.tile];
    assert CropAt(world.View(), pos) == Some(crop);
    var def := reg[crop.cropId];
    var stage := crop.stage + 1;
    var nextStageAt := if stage < def.stages - 1 then Some(now + def.growthTimePerStage as real) else None;
    world.InsertCrop(pos, crop.(stage := stage, nextStageAt := nextStageAt));
  }

  /** Under the world invariant every due crop can be advanced without a panic. */
  lemma InvariantAllowsAdvance(v: WorldView, now: real, reg: Registry)
    requires WorldInvariant(v, reg)
    ensures CanAdvance(v, now, reg)
  {
  }

  /**
   * Advancing a pending crop keeps it consistent: its stage grows by one, it
   * is rescheduled `growth_time_per_stage` after `now` (not after its old due
   * time) unless it reached the last stage, where it stops being pending.
   */
  lemma AdvanceCropKeepsInvariant(crop: CropData, reg: Registry, now: real)
    requires ValidRegistry(reg) && CropInvariant(crop, reg) && crop.nextStageAt.Some?
    ensures crop.stage < 255
    ensures var c := AdvanceCrop(crop, reg[crop.cropId], now);
      && CropInvariant(c, reg) && c.cropId == crop.cropId && c.stage == crop.stage + 1
      && (c.nextStageAt.Some? ==> c.nextStageAt.value == now + reg[crop.cropId].growthTimePerStage as real)
  {
  }

  /** One growth step keeps the world invariant and touches no other crop and no tile. */
  lemma {:induction false} AdvanceKeepsWorldInvariant(v: WorldView, p: MapPos, t: real, now: real, reg: Registry)
    requires WorldInvariant(v, reg) && Pending(v, p, t)
    ensures CropAt(v, p).value.stage < 255
    ensures WorldInvariant(AdvanceAt(v, p, now, reg), reg)
    ensures forall q | q != p :: CropAt(AdvanceAt(v, p, now, reg), q) == CropAt(v, q)
    ensures forall c | c in v :: AdvanceAt(v, p, now, reg)[c].tiles == v[c].tiles
  {
    var crop := CropAt(v, p).value;
    AdvanceCropKeepsInvariant(crop, reg, now);
    var r := AdvanceAt(v, p, now, reg);
    forall q | CropAt(r, q).Some?
      ensures InChunk(q.tile) && HasTile(r, q) && TileAt(r, q).isTilled && CropInvariant(CropAt(r, q).value, reg)
    {
      assert CropAt(v, q).Some?;
      assert r[q.chunk].tiles == v[q.chunk].tiles;
    }
  }

  /** A crop that reached its last stage is never pending, so the scheduler never selects it again. */
  lemma TerminalNeverPending(v: WorldView, p: MapPos, t: real, reg: Registry)
    requires WorldInvariant(v, reg) && CropAt(v, p).Some?
    requires CropAt(v, p).value.stage == reg[CropAt(v, p).value.cropId].stages - 1
    ensures !Pending(v, p, t)
  {
  }

  /**
   * With four stages, a freshly planted crop is pending after zero, one and
   * two advances, and after the third it sits at stage 3 and is terminal.
   */
  lemma FourStageCropLifecycle(def: CropDefinition, t0: real, t1: real, t2: real, t3: real)
    requires def.stages == 4
    ensures var c0 := NewCrop(def, t0);
      var c1 := AdvanceCrop(c0, def, t1);
      var c2 := AdvanceCrop(c1, def, t2);
      var c3 := AdvanceCrop(c2, def, t3);
      && c1.stage == 1 && c1.nextStageAt == Some(t1 + def.growthTimePerStage as real)
      && c2.stage == 2 && c2.nextStageAt == Some(t2 + def.growthTimePerStage as real)
      && c3.stage == 3 && c3.nextStageAt == None
  {
  }

  /** A freshly planted crop of a valid registry satisfies the crop invariant. */
  lemma NewCropKeepsInvariant(def: CropDefinition, reg: Registry, now: real)
    requires ValidRegistry(reg) && def.id in reg && reg[def.id] == def
    ensures CropInvariant(NewCrop(def, now), reg)
  {
  }

  /** The world the game starts with, under the hard-coded crops, satisfies the world invariant. */
  lemma DefaultWorldSatisfiesInvariant()
    ensures WorldInvariant(DefaultView(), DebugRegistry())
  {
    DefaultViewShape(ChunkPos(0, 0), 0, 0);
  }
}
