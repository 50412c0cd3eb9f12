/**
 * One chunk of the world (src/game/world_data/chunk_data.rs, with the tile
 * record of src/game/world_data/tile_data.rs folded in): a flat array of
 * 32 x 32 tiles addressed by `x + y * 32`, and the crops planted on it.
 */
module Chunks {
  import opened Options
  import opened Items
  import opened MapPositions

  /** Number of tiles in a chunk (`CHUNK_SIZE * CHUNK_SIZE`). */
  const TileCount: nat := ChunkSize * ChunkSize

  datatype GroundType = Grass

  datatype CardinalDirection = North | East | South | West

  /** Which edges of a tile carry a wall. */
  datatype Walls = Walls(north: bool, east: bool, south: bool, west: bool) {

    /** `walls.at(edge)`. */
    function At(d: CardinalDirection): bool {
      match d
      case North => north
      case East => east
      case South => south
      case West => west
    }

    /** `walls.set_at(edge, value)`: the edges are independent of each other. */
    function SetAt(d: CardinalDirection, value: bool): (w: Walls)
      ensures w.At(d) == value
      ensures forall e: CardinalDirection | e != d :: w.At(e) == At(e)
    {
      match d
      case North => this.(north := value)
      case East => this.(east := value)
      case South => this.(south := value)
      case West => this.(west := value)
    }
  }

  const NoWalls: Walls := Walls(false, false, false, false)

  /** `TileData`: ground type, tilled flag and the per-edge walls. */
  datatype TileData = TileData(groundType: GroundType, isTilled: bool, walls: Walls)

  /** `TileData::default()`: untilled grass without walls. */
  const DefaultTile: TileData := TileData(Grass, false, NoWalls)

  /**
   * `CropData`: the species, the due time of the next stage (`None` once the
   * crop is fully grown) and the current stage (a `u8`).
   */
  datatype CropData = CropData(cropId: CropId, nextStageAt: Option<real>, stage: nat)

  /** `CropData::new`: a freshly planted crop, due one growth period from now. */
  function NewCrop(def: CropDefinition, now: real): (c: CropData)
    ensures c.stage == 0 && c.cropId == def.id
    ensures c.nextStageAt.Some? && c.nextStageAt.value - now == def.growthTimePerStage as real
  {
    CropData(def.id, Some(now + def.growthTimePerStage as real), 0)
  }

  /** Position of tile (x, y) in the flat array (computed in `usize`, which cannot overflow here). */
  function Index(x: nat, y: nat): nat {
    x + y * ChunkSize
  }

  /**
   * The flat layout is a bijection between the in-chunk coordinates and the
   * array positions 0 .. 1023.
   */
  lemma IndexBijection(x: nat, y: nat, x': nat, y': nat, i: nat)
    requires x < ChunkSize && y < ChunkSize && x' < ChunkSize && y' < ChunkSize
    ensures Index(x, y) < TileCount
    ensures Index(x, y) == Index(x', y') ==> x == x' && y == y'
    ensures i < TileCount ==> i % ChunkSize < ChunkSize && i / ChunkSize < ChunkSize && Index(i % ChunkSize, i / ChunkSize) == i
  {
    assert Index(x, y) == x + y * 32;
    assert y * 32 <= 31 * 32;
    assert Index(x', y') == x' + y' * 32;
  }

  /**
   * The value of a chunk: its 1024 tiles and its crop map. The class `Chunk`
   * below holds the same data in an array that its methods update in place.
   */
  datatype ChunkValue = ChunkValue(tiles: seq<TileData>, crops: map<TilePos, CropData>) {

    predicate Valid() {
      |tiles| == TileCount
    }

    /** `at(x, y)`; the source panics when the flat index is out of bounds. */
    function At(x: nat, y: nat): TileData
      requires Valid() && Index(x, y) < TileCount
    {
      tiles[Index(x, y)]
    }

    /** `at_pos(pos)`. */
    function AtPos(pos: TilePos): TileData
      requires Valid() && Index(pos.x, pos.y) < TileCount
    {
      At(pos.x, pos.y)
    }

    /** `set_at(x, y, value)`: only the tilled flag of that one tile changes. */
    function SetAt(x: nat, y: nat, value: bool): (c: ChunkValue)
      requires Valid() && Index(x, y) < TileCount
      ensures c.Valid()
      ensures c.At(x, y) == At(x, y).(isTilled := value)
      ensures forall i | 0 <= i < TileCount && i != Index(x, y) :: c.tiles[i] == tiles[i]
      ensures c.crops == crops
    {
      var i := Index(x, y);
      ChunkValue(tiles[i := tiles[i].(isTilled := value)], crops)
    }

    /** A write of a whole tile through the reference that `at_mut(x, y)` returns. */
    function PutAt(x: nat, y: nat, t: TileData): (c: ChunkValue)
      requires Valid() && Index(x, y) < TileCount
      ensures c.Valid() && c.At(x, y) == t
      ensures forall i | 0 <= i < TileCount && i != Index(x, y) :: c.tiles[i] == tiles[i]
      ensures c.crops == crops
    {
      ChunkValue(tiles[Index(x, y) := t], crops)
    }
  }

  /** `ChunkData::default()`: default tiles everywhere and no crops. */
  function EmptyChunk(): ChunkValue {
    ChunkValue(seq(TileCount, _ => DefaultTile), map[])
  }

  lemma EmptyChunkIsDefault(x: nat, y: nat)
    requires x < ChunkSize && y < ChunkSize
    ensures EmptyChunk().Valid()
    ensures EmptyChunk().At(x, y) == DefaultTile
    ensures !EmptyChunk().At(x, y).isTilled && EmptyChunk().At(x, y).groundType == Grass
    ensures EmptyChunk().crops == map[]
  {
    IndexBijection(x, y, x, y, 0);
  }

  /**
   * Tilling a tile and untilling it again leaves it untilled, with the rest of
   * the tile, every other tile and the crops as they were.
   */
  lemma SetAtThenUnset(c: ChunkValue, x: nat, y: nat)
    requires c.Valid() && Index(x, y) < TileCount
    ensures c.SetAt(x, y, true).SetAt(x, y, false) == c.SetAt(x, y, false)
    ensures !c.SetAt(x, y, true).SetAt(x, y, false).At(x, y).isTilled
    ensures c.SetAt(x, y, true).SetAt(x, y, false).crops == c.crops
  {
  }

  /** `ChunkData`, holding its tiles in a fixed-size array. */
  class Chunk {
    const tiles: array<TileData>
    var crops: map<TilePos, CropData>

    ghost predicate Valid() {
      tiles.Length == TileCount
    }

    /** The chunk as a value. */
    ghost function Value(): (v: ChunkValue)
      reads this, tiles
      ensures Valid() ==> v.Valid()
    {
      ChunkValue(tiles[..], crops)
    }

    /** `ChunkData::default()`. */
    constructor Default()
      ensures Valid() && fresh(tiles)
      ensures Value() == EmptyChunk()
    {
      tiles := new TileData[TileCount](_ => DefaultTile);
      crops := map[];
      new;
      assert tiles[..] == EmptyChunk().tiles;
    }

    /** `at(x, y)`. */
    function At(x: nat, y: nat): (t: TileData)
      reads this, tiles
      requires Valid() && Index(x, y) < TileCount
      ensures t == Value().At(x, y)
    {
      tiles[Index(x, y)]
    }

    /** `at_pos(pos)` is `at(pos.x, pos.y)`. */
    function AtPos(pos: TilePos): (t: TileData)
      reads this, tiles
      requires Valid() && Index(pos.x, pos.y) < TileCount
      ensures t == At(pos.x, pos.y)
    {
      At(pos.x, pos.y)
    }

    /** A write of `t` through the reference that `at_mut(x, y)` returns. */
    method AtMut(x: nat, y: nat, t: TileData)
      requires Valid() && Index(x, y) < TileCount
      modifies tiles
      ensures Value() == old(Value()).PutAt(x, y, t)
    {
      tiles[Index(x, y)] := t;
    }

    /** `at_pos_mut(pos)` is `at_mut(pos.x, pos.y)`. */
    method AtPosMut(pos: TilePos, t: TileData)
      requires Valid() && Index(pos.x, pos.y) < TileCount
      modifies tiles
      ensures Value() == old(Value()).PutAt(pos.x, pos.y, t)
    {
      AtMut(pos.x, pos.y, t);
    }

    /** `set_at(x, y, value)`. */
    method SetAt(x: nat, y: nat, value: bool)
      requires Valid() && Index(x, y) < TileCount
      modifies tiles
      ensures Value() == old(Value()).SetAt(x, y, value)
    {
      var i := Index(x, y);
      tiles[i] := tiles[i].(isTilled := value);
    }

    /** `set_at_pos(pos, value)` is `set_at(pos.x, pos.y, value)`. */
    method SetAtPos(pos: TilePos, value: bool)
      requires Valid() && Index(pos.x, pos.y) < TileCount
      modifies tiles
      ensures Value() == old(Value()).SetAt(pos.x, pos.y, value)
    {
      SetAt(pos.x, pos.y, value);
    }
  }
}
