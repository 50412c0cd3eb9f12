/**
 * Neighbour addressing across chunk edges and the autotile index of a
 * tilled tile (src/game/tilemap/helpers.rs).
 */
module TileHelpers {
  import opened MapPositions
  import opened Chunks
  import opened Worlds

  /** `left_of`: the tile one column to the left, in the left chunk at local x = 0. */
  function LeftOf(chunkPos: ChunkPos, tilePos: TilePos): (r: MapPos)
    ensures InChunk(tilePos) ==> InChunk(r.tile)
    ensures InChunk(tilePos) ==> GlobalX(r) == GlobalX(MapPos(chunkPos, tilePos)) - 1
    ensures GlobalY(r) == GlobalY(MapPos(chunkPos, tilePos))
  {
    if tilePos.x == 0 then
      MapPos(ChunkPos(chunkPos.x - 1, chunkPos.y), TilePos(ChunkSize - 1, tilePos.y))
    else
      MapPos(chunkPos, TilePos(tilePos.x - 1, tilePos.y))
  }

  /** `right_of`: the tile one column to the right, in the right chunk at local x >= 31. */
  function RightOf(chunkPos: ChunkPos, tilePos: TilePos): (r: MapPos)
    ensures InChunk(tilePos) ==> InChunk(r.tile)
    ensures InChunk(tilePos) ==> GlobalX(r) == GlobalX(MapPos(chunkPos, tilePos)) + 1
    ensures GlobalY(r) == GlobalY(MapPos(chunkPos, tilePos))
  {
    if tilePos.x >= ChunkSize - 1 then
      MapPos(ChunkPos(chunkPos.x + 1, chunkPos.y), TilePos(0, tilePos.y))
    else
      MapPos(chunkPos, TilePos(tilePos.x + 1, tilePos.y))
  }

  /** `below_of`: the tile one row down, in the chunk below at local y = 0. */
  function BelowOf(chunkPos: ChunkPos, tilePos: TilePos): (r: MapPos)
    ensures InChunk(tilePos) ==> InChunk(r.tile)
    ensures InChunk(tilePos) ==> GlobalY(r) == GlobalY(MapPos(chunkPos, tilePos)) - 1
    ensures GlobalX(r) == GlobalX(MapPos(chunkPos, tilePos))
  {
    if tilePos.y == 0 then
      MapPos(ChunkPos(chunkPos.x, chunkPos.y - 1), TilePos(tilePos.x, ChunkSize - 1))
    else
      MapPos(chunkPos, TilePos(tilePos.x, tilePos.y - 1))
  }

  /** `top_of`: the tile one row up, in the chunk above at local y >= 31. */
  function TopOf(chunkPos: ChunkPos, tilePos: TilePos): (r: MapPos)
    ensures InChunk(tilePos) ==> InChunk(r.tile)
    ensures InChunk(tilePos) ==> GlobalY(r) == GlobalY(MapPos(chunkPos, tilePos)) + 1
    ensures GlobalX(r) == GlobalX(MapPos(chunkPos, tilePos))
  {
    if tilePos.y >= ChunkSize - 1 then
      MapPos(ChunkPos(chunkPos.x, chunkPos.y + 1), TilePos(tilePos.x, 0))
    else
      MapPos(chunkPos, TilePos(tilePos.x, tilePos.y + 1))
  }

  /** Two in-chunk addresses with the same absolute coordinates are the same address. */
  lemma {:induction false} GlobalInjective(p: MapPos, q: MapPos)
    requires InChunk(p.tile) && InChunk(q.tile)
    requires GlobalX(p) == GlobalX(q) && GlobalY(p) == GlobalY(q)
    ensures p == q
  {
    AxisUnique(p.chunk.x, p.tile.x, q.chunk.x, q.tile.x);
    AxisUnique(p.chunk.y, p.tile.y, q.chunk.y, q.tile.y);
  }

  lemma AxisUnique(c: int, t: nat, d: int, u: nat)
    requires t < ChunkSize && u < ChunkSize && c * ChunkSize + t == d * ChunkSize + u
    ensures c == d && t == u
  {
  }

  /**
   * Opposite resolvers undo each other on in-chunk tiles: stepping left then
   * right, right then left, down then up or up then down returns to the start.
   */
  lemma {:induction false} NeighbourRoundTrips(c: ChunkPos, t: TilePos)
    requires InChunk(t)
    ensures var l := LeftOf(c, t); RightOf(l.chunk, l.tile) == MapPos(c, t)
    ensures var r := RightOf(c, t); LeftOf(r.chunk, r.tile) == MapPos(c, t)
    ensures var b := BelowOf(c, t); TopOf(b.chunk, b.tile) == MapPos(c, t)
    ensures var a := TopOf(c, t); BelowOf(a.chunk, a.tile) == MapPos(c, t)
  {
    var p := MapPos(c, t);
    var l := LeftOf(c, t);
    GlobalInjective(RightOf(l.chunk, l.tile), p);
    var r := RightOf(c, t);
    GlobalInjective(LeftOf(r.chunk, r.tile), p);
    var b := BelowOf(c, t);
    GlobalInjective(TopOf(b.chunk, b.tile), p);
    var a := TopOf(c, t);
    GlobalInjective(BelowOf(a.chunk, a.tile), p);
  }

  /**
   * The code of one pair of opposite neighbours in the texture sheet:
   * neither tilled 0, only the second 1, both 2, only the first 3.
   */
  function EdgeCode(first: bool, second: bool): (k: nat)
    ensures k < 4
    ensures k == 0 <==> !first && !second
    ensures k == 2 <==> first && second
  {
    if first && second then 2 else if first then 3 else if second then 1 else 0
  }

  /** `EdgeCode` tells the two flags apart. */
  lemma EdgeCodeInjective(a: bool, b: bool, c: bool, d: bool)
    ensures EdgeCode(a, b) == EdgeCode(c, d) ==> a == c && b == d
  {
  }

  /**
   * The nested conditionals of `determine_texture_index` on the four
   * neighbour flags. The 4x4 sheet has one row per (up, down) code and one
   * column per (left, right) code.
   */
  function TextureIndexFor(up: bool, down: bool, left: bool, right: bool): (r: nat)
    ensures r < 16
    ensures r == 4 * EdgeCode(up, down) + EdgeCode(left, right)
  {
    if up then
      if down then
        if left then (if right then 10 else 11)
        else if right then 9 else 8
      else if left then (if right then 14 else 15)
      else (if right then 13 else 12)
    else if down then
      if left then (if right then 6 else 7)
      else if right then 5 else 4
    else if left then (if right then 2 else 3)
    else (if right then 1 else 0)
  }

  /**
   * Distinct neighbour combinations get distinct indices, every index in
   * 0..15 is used, and the row `index / 4` depends only on up and down.
   */
  lemma {:induction false} TextureIndexBijective(up: bool, down: bool, left: bool, right: bool,
                                                 up': bool, down': bool, left': bool, right': bool, k: nat)
    ensures TextureIndexFor(up, down, left, right) == TextureIndexFor(up', down', left', right') ==>
              up == up' && down == down' && left == left' && right == right'
    ensures TextureIndexFor(up, down, left, right) / 4 == EdgeCode(up, down)
    ensures TextureIndexFor(up, down, left, right) % 4 == EdgeCode(left, right)
    ensures k < 16 ==> exists u, d, l, r :: TextureIndexFor(u, d, l, r) == k
  {
    var i := TextureIndexFor(up, down, left, right);
    var i' := TextureIndexFor(up', down', left', right');
    if i == i' {
      assert EdgeCode(up, down) == EdgeCode(up', down');
      assert EdgeCode(left, right) == EdgeCode(left', right');
      EdgeCodeInjective(up, down, up', down');
      EdgeCodeInjective(left, right, left', right');
    }
    if k < 16 {
      var row, col := k / 4, k % 4;
      var u := row == 2 || row == 3;
      var d := row == 1 || row == 2;
      var l := col == 2 || col == 3;
      var r := col == 1 || col == 2;
      assert TextureIndexFor(u, d, l, r) == 4 * row + col;
    }
  }

  /** The corner cases named in the texture sheet's layout. */
  lemma TextureIndexCorners()
    ensures TextureIndexFor(false, false, false, false) == 0
    ensures TextureIndexFor(true, true, true, true) == 10
    ensures TextureIndexFor(false, false, false, true) == 1
    ensures TextureIndexFor(true, false, false, false) == 12
  {
  }

  /** Whether the tile at `p` is tilled; a tile in an absent chunk counts as untilled. */
  predicate TilledAt(v: WorldView, p: MapPos)
    requires ValidView(v) && InChunk(p.tile)
  {
    p.chunk in v && v[p.chunk].AtPos(p.tile).isTilled
  }

  /** The tilled flag of tile (x, y) of chunk `c` when that chunk exists, and false otherwise. */
  function TilledIn(world: World, c: ChunkPos, x: nat, y: nat): (b: bool)
    reads world, world.Repr
    requires world.Valid() && x < ChunkSize && y < ChunkSize
    ensures b == TilledAt(world.View(), MapPos(c, TilePos(x, y)))
  {
    if c in world.chunks then world.chunks[c].At(x, y).isTilled else false
  }

  /**
   * `determine_texture_index`: reads the tilled flag of the four neighbours,
   * from the tile's own chunk away from an edge and from the adjacent chunk at
   * the mirrored coordinate 0 or 31 at an edge, and picks the sheet index.
   * The tile's own chunk must exist (the source unwraps it).
   */
  function DetermineTextureIndex(pos: TilePos, chunkPos: ChunkPos, world: World): (r: nat)
    reads world, world.Repr
    requires world.Valid() && chunkPos in world.chunks && InChunk(pos)
    ensures r < 16
    ensures r == TextureIndexFor(TilledAt(world.View(), TopOf(chunkPos, pos)),
                                 TilledAt(world.View(), BelowOf(chunkPos, pos)),
                                 TilledAt(world.View(), LeftOf(chunkPos, pos)),
                                 TilledAt(world.View(), RightOf(chunkPos, pos)))
  {
    var chunk := world.chunks[chunkPos];
    var up :=
      if pos.y < ChunkSize - 1 then chunk.At(pos.x, pos.y + 1).isTilled
      else TilledIn(world, ChunkPos(chunkPos.x, chunkPos.y + 1), pos.x, 0);
    var down :=
      if pos.y > 0 then chunk.At(pos.x, pos.y - 1).isTilled
      else TilledIn(world, ChunkPos(chunkPos.x, chunkPos.y - 1), pos.x, ChunkSize - 1);
    var right :=
      if pos.x < ChunkSize - 1 then chunk.At(pos.x + 1, pos.y).isTilled
      else TilledIn(world, ChunkPos(chunkPos.x + 1, chunkPos.y), 0, pos.y);
    var left :=
      if pos.x > 0 then chunk.At(pos.x - 1, pos.y).isTilled
      else TilledIn(world, ChunkPos(chunkPos.x - 1, chunkPos.y), ChunkSize - 1, pos.y);
    assert up == TilledAt(world.View(), TopOf(chunkPos, pos));
    assert down == TilledAt(world.View(), BelowOf(chunkPos, pos));
    assert right == TilledAt(world.View(), RightOf(chunkPos, pos));
    assert left == TilledAt(world.View(), LeftOf(chunkPos, pos));
    TextureIndexFor(up, down, left, right)
  }
}
