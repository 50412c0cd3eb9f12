/**
 * Tile cursors (src/game/tilemap/tile_cursor.rs): one marker per tile the
 * pointer's ray currently hits, reconciled against last frame's markers.
 * The ray cast itself is not modelled: the frame's selection is a parameter.
 */
module TileCursors {
  import opened MapPositions
  import opened TileHelpers

  /** The `TileCursor` component. */
  datatype TileCursor = TileCursor(pos: MapPos)

  /** `global_position`: the cursor's absolute tile coordinates. */
  function GlobalPosition(c: TileCursor): (r: (int, int))
    ensures r.0 as real == c.pos.WorldPos(0.0).x && r.1 as real == c.pos.WorldPos(0.0).z
    ensures r == (GlobalX(c.pos), GlobalY(c.pos))
  {
    (c.pos.chunk.x * ChunkSize + c.pos.tile.x, c.pos.chunk.y * ChunkSize + c.pos.tile.y)
  }

  /** Two cursors on in-chunk tiles share a global position only if they mark the same tile. */
  lemma {:induction false} GlobalPositionInjective(a: TileCursor, b: TileCursor)
    requires InChunk(a.pos.tile) && InChunk(b.pos.tile)
    requires GlobalPosition(a) == GlobalPosition(b)
    ensures a == b
  {
    GlobalInjective(a.pos, b.pos);
  }

  /** Some cursor of `cursors` marks `p`. */
  predicate Marks(cursors: seq<TileCursor>, p: MapPos) {
    exists i | 0 <= i < |cursors| :: cursors[i].pos == p
  }

  /**
   * The selection entries no kept cursor marks, in selection order and with
   * their repetitions: one new cursor is spawned per entry.
   */
  function Unmarked(selection: seq<MapPos>, kept: seq<MapPos>): (r: seq<MapPos>)
    ensures |r| <= |selection|
    ensures forall p :: p in r <==> p in selection && p !in kept
    decreases |selection|
  {
    if |selection| == 0 then []
    else
      var init := Unmarked(selection[..|selection| - 1], kept);
      var last := selection[|selection| - 1];
      assert forall p :: p in selection <==> p in selection[..|selection| - 1] || p == last by {
        assert selection == selection[..|selection| - 1] + [last];
      }
      if last in kept then init else init + [last]
  }

  /** Extending the visited prefix by one cursor adds exactly that cursor's tile. */
  lemma {:induction false} MarksExtend(cursors: seq<TileCursor>, i: nat)
    requires i < |cursors|
    ensures forall p :: Marks(cursors[..i + 1], p) <==> Marks(cursors[..i], p) || cursors[i].pos == p
  {
    forall p ensures Marks(cursors[..i + 1], p) <==> Marks(cursors[..i], p) || cursors[i].pos == p {
      if Marks(cursors[..i + 1], p) {
        var j :| 0 <= j < i + 1 && cursors[..i + 1][j].pos == p;
        if j < i {
          assert cursors[..i][j] == cursors[j];
        }
      }
      if Marks(cursors[..i], p) {
        var j :| 0 <= j < i && cursors[..i][j].pos == p;
        assert cursors[..i + 1][j] == cursors[j];
      }
      if cursors[i].pos == p {
        assert cursors[..i + 1][i] == cursors[i];
      }
    }
  }

  /**
   * The reconciliation of `update_tile_cursor`. Each existing cursor (in
   * query order, entity `i` being `existing[i]`) whose tile is still
   * selected is kept, the others are despawned; every selected tile that no
   * kept cursor marks gets a new cursor, placed at `world_pos(0.0)`.
   * Returns the despawned entities, the kept positions and the positions of
   * the spawned cursors, in the order the source visits them.
   */
  method UpdateTileCursor(existing: seq<TileCursor>, selection: seq<MapPos>)
    returns (despawned: seq<nat>, kept: seq<MapPos>, spawned: seq<MapPos>)
    ensures forall i: nat :: i in despawned <==> i < |existing| && existing[i].pos !in selection
    ensures forall k | 0 <= k < |despawned| - 1 :: despawned[k] < despawned[k + 1]
    ensures forall p :: p in kept <==> p in selection && Marks(existing, p)
    ensures |despawned| + |kept| == |existing|
    ensures spawned == Unmarked(selection, kept)
    ensures |spawned| <= |selection|
    ensures forall p :: p in spawned <==> p in selection && p !in kept
    ensures forall p :: p in kept || p in spawned <==> p in selection
  {
    despawned, kept := [], [];
    var i := 0;
    while i < |existing|
      invariant 0 <= i <= |existing|
      invariant forall j: nat :: j in despawned <==> j < i && existing[j].pos !in selection
      invariant forall k | 0 <= k < |despawned| :: despawned[k] < i
      invariant forall k | 0 <= k < |despawned| - 1 :: despawned[k] < despawned[k + 1]
      invariant forall p :: p in kept <==> p in selection && Marks(existing[..i], p)
      invariant |despawned| + |kept| == i
    {
      MarksExtend(existing, i);
      if existing[i].pos in selection {
        kept := kept + [existing[i].pos];
      } else {
        despawned := despawned + [i];
      }
      i := i + 1;
    }
    assert existing[..i] == existing;
    spawned := [];
    i := 0;
    while i < |selection|
      invariant 0 <= i <= |selection|
      invariant spawned == Unmarked(selection[..i], kept)
    {
      assert selection[..i + 1][..i] == selection[..i];
      if selection[i] !in kept {
        spawned := spawned + [selection[i]];
      }
      i := i + 1;
    }
    assert selection[..i] == selection;
  }
}
