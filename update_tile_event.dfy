/**
 * The notification that a tile's texture must be recomputed, and the four
 * notifications for a tile's neighbours (src/game/tilemap/update_tile_event.rs).
 */
module TileEvents {
  import opened MapPositions
  import opened TileHelpers

  /** `UpdateTileEvent`; `UpdateTileEvent::new(c, t)` is the constructor. */
  datatype UpdateTileEvent = UpdateTileEvent(chunkPos: ChunkPos, tilePos: TilePos) {
    function Address(): MapPos {
      MapPos(chunkPos, tilePos)
    }
  }

  /** Tiles that share an edge: one step apart on exactly one axis. */
  predicate Adjacent(p: MapPos, q: MapPos) {
    var dx := GlobalX(q) - GlobalX(p);
    var dy := GlobalY(q) - GlobalY(p);
    (dy == 0 && (dx == 1 || dx == -1)) || (dx == 0 && (dy == 1 || dy == -1))
  }

  /**
   * `UpdateTileEvent::surrounding_tiles`: the events for the left, right, top
   * and bottom neighbours, in that order, each at the address its resolver
   * returns.
   */
  function SurroundingTiles(chunkPos: ChunkPos, tilePos: TilePos): (r: seq<UpdateTileEvent>)
    ensures |r| == 4
    ensures InChunk(tilePos) ==> forall i | 0 <= i < 4 :: InChunk(r[i].tilePos)
    ensures var p := MapPos(chunkPos, tilePos);
      && GlobalY(r[0].Address()) == GlobalY(p) && GlobalY(r[1].Address()) == GlobalY(p)
      && GlobalX(r[2].Address()) == GlobalX(p) && GlobalX(r[3].Address()) == GlobalX(p)
      && (InChunk(tilePos) ==>
            && GlobalX(r[0].Address()) == GlobalX(p) - 1 && GlobalX(r[1].Address()) == GlobalX(p) + 1
            && GlobalY(r[2].Address()) == GlobalY(p) + 1 && GlobalY(r[3].Address()) == GlobalY(p) - 1)
  {
    var left := LeftOf(chunkPos, tilePos);
    var right := RightOf(chunkPos, tilePos);
    var top := TopOf(chunkPos, tilePos);
    var bottom := BelowOf(chunkPos, tilePos);
    [UpdateTileEvent(left.chunk, left.tile), UpdateTileEvent(right.chunk, right.tile),
     UpdateTileEvent(top.chunk, top.tile), UpdateTileEvent(bottom.chunk, bottom.tile)]
  }

  /**
   * For an in-chunk tile the four events are pairwise distinct, none of them
   * addresses the tile itself, and an in-chunk address is among them exactly
   * when it is adjacent to the tile.
   */
  lemma {:induction false} SurroundingTilesAreTheNeighbours(c: ChunkPos, t: TilePos, q: MapPos)
    requires InChunk(t)
    ensures var r := SurroundingTiles(c, t);
      forall i, j | 0 <= i < 4 && 0 <= j < 4 && i != j :: r[i] != r[j]
    ensures var r := SurroundingTiles(c, t);
      forall i | 0 <= i < 4 :: r[i].Address() != MapPos(c, t)
    ensures InChunk(q.tile) ==>
      ((exists i | 0 <= i < 4 :: SurroundingTiles(c, t)[i].Address() == q) <==> Adjacent(MapPos(c, t), q))
  {
    var p := MapPos(c, t);
    var r := SurroundingTiles(c, t);
    if InChunk(q.tile) && Adjacent(p, q) {
      var dx := GlobalX(q) - GlobalX(p);
      var dy := GlobalY(q) - GlobalY(p);
      var i := if dx == -1 then 0 else if dx == 1 then 1 else if dy == 1 then 2 else 3;
      GlobalInjective(r[i].Address(), q);
    }
  }
}
