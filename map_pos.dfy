/**
 * Addresses in the chunked world (src/game/map_pos.rs): a signed chunk
 * coordinate plus a local tile coordinate, and the world-space positions
 * derived from them.
 */
module MapPositions {

  /** Side length of a chunk, in tiles (`CHUNK_SIZE`). */
  const ChunkSize: nat := 32

  /** `ChunkPos` (an `IVec2`). */
  datatype ChunkPos = ChunkPos(x: int, y: int)

  /** `TilePos` (two `u32`s). */
  datatype TilePos = TilePos(x: nat, y: nat)

  /** A local coordinate that lies inside a chunk. */
  predicate InChunk(t: TilePos) {
    t.x < ChunkSize && t.y < ChunkSize
  }

  /** `Vec3`, with `f32` components modelled as reals. */
  datatype Vec3 = Vec3(x: real, y: real, z: real)

  /** `MapPos`: the chunk and the tile inside it. `MapPos::new` is the constructor. */
  datatype MapPos = MapPos(chunk: ChunkPos, tile: TilePos) {

    /** `world_pos`: the tile's position in world space at height `y`. */
    function WorldPos(y: real): Vec3 {
      Vec3(chunk.x as real * ChunkSize as real + tile.x as real,
           y,
           chunk.y as real * ChunkSize as real + tile.y as real)
    }

    /** `pos_inside_chunk`: the tile's position relative to its chunk's origin. */
    function PosInsideChunk(y: real): Vec3 {
      Vec3(tile.x as real, y, tile.y as real)
    }
  }

  /** The absolute column of a tile: `chunk.x * CHUNK_SIZE + tile.x`. */
  function GlobalX(p: MapPos): int {
    p.chunk.x * ChunkSize + p.tile.x
  }

  /** The absolute row of a tile: `chunk.y * CHUNK_SIZE + tile.y`. */
  function GlobalY(p: MapPos): int {
    p.chunk.y * ChunkSize + p.tile.y
  }

  /**
   * The world position is the chunk's origin plus the position inside the
   * chunk, and the position inside the chunk does not depend on the chunk.
   */
  lemma WorldPosIsChunkOriginPlusLocal(p: MapPos, y: real, other: ChunkPos)
    ensures p.WorldPos(y).x == p.chunk.x as real * 32.0 + p.PosInsideChunk(y).x
    ensures p.WorldPos(y).z == p.chunk.y as real * 32.0 + p.PosInsideChunk(y).z
    ensures p.WorldPos(y).y == y
    ensures MapPos(other, p.tile).PosInsideChunk(y) == p.PosInsideChunk(y)
  {
  }

  /**
   * Two in-chunk addresses with the same world position are the same
   * address: the chunked layout covers the plane without overlap.
   */
  lemma {:induction false} WorldPosInjective(p: MapPos, q: MapPos, y: real)
    requires InChunk(p.tile) && InChunk(q.tile)
    requires p.WorldPos(y) == q.WorldPos(y)
    ensures p == q
  {
    AxisInjective(p.chunk.x, p.tile.x, q.chunk.x, q.tile.x);
    AxisInjective(p.chunk.y, p.tile.y, q.chunk.y, q.tile.y);
  }

  lemma AxisInjective(c: int, t: nat, d: int, u: nat)
    requires t < 32 && u < 32
    requires c as real * 32.0 + t as real == d as real * 32.0 + u as real
    ensures c == d && t == u
  {
    assert c * 32 + t == d * 32 + u;
  }
}
