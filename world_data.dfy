/**
 * The whole world (src/game/world_data/mod.rs): a map from chunk coordinate
 * to chunk, preloaded with the four chunks around the origin.
 */
module Worlds {
  import opened Options
  import opened MapPositions
  import opened Chunks

  /** The world as a value: chunk coordinate to chunk value. */
  type WorldView = map<ChunkPos, ChunkValue>

  predicate ValidView(v: WorldView) {
    forall c | c in v :: v[c].Valid()
  }

  /** The address lies in an existing chunk and its flat index is in bounds. */
  predicate HasTile(v: WorldView, pos: MapPos) {
    pos.chunk in v && v[pos.chunk].Valid() && Index(pos.tile.x, pos.tile.y) < TileCount
  }

  function TileAt(v: WorldView, pos: MapPos): TileData
    requires HasTile(v, pos)
  {
    v[pos.chunk].AtPos(pos.tile)
  }

  /** The crop planted at an address, if any. */
  function CropAt(v: WorldView, pos: MapPos): Option<CropData> {
    if pos.chunk in v && pos.tile in v[pos.chunk].crops then Some(v[pos.chunk].crops[pos.tile]) else None
  }

  /** The world after `set_at_pos` on one chunk. */
  function SetTilledIn(v: WorldView, pos: MapPos, value: bool): (r: WorldView)
    requires HasTile(v, pos)
    ensures r.Keys == v.Keys
    ensures HasTile(r, pos) && TileAt(r, pos) == TileAt(v, pos).(isTilled := value)
    ensures forall q | HasTile(v, q) && SameFlatIndexAs(q, pos) :: HasTile(r, q) && TileAt(r, q) == TileAt(r, pos)
    ensures forall q | HasTile(v, q) && !SameFlatIndexAs(q, pos) :: HasTile(r, q) && TileAt(r, q) == TileAt(v, q)
    ensures forall q :: CropAt(r, q) == CropAt(v, q)
  {
    v[pos.chunk := v[pos.chunk].SetAt(pos.tile.x, pos.tile.y, value)]
  }

  /** Both addresses name the same array slot of the same chunk. */
  predicate SameFlatIndexAs(q: MapPos, pos: MapPos) {
    q.chunk == pos.chunk && Index(q.tile.x, q.tile.y) == Index(pos.tile.x, pos.tile.y)
  }

  /** The world after a tile is overwritten through `at_pos_mut`. */
  function PutTileIn(v: WorldView, pos: MapPos, t: TileData): (r: WorldView)
    requires HasTile(v, pos)
    ensures r.Keys == v.Keys
    ensures HasTile(r, pos) && TileAt(r, pos) == t
    ensures forall q | HasTile(v, q) && SameFlatIndexAs(q, pos) :: HasTile(r, q) && TileAt(r, q) == t
    ensures forall q | HasTile(v, q) && !SameFlatIndexAs(q, pos) :: HasTile(r, q) && TileAt(r, q) == TileAt(v, q)
    ensures forall q :: CropAt(r, q) == CropAt(v, q)
  {
    v[pos.chunk := v[pos.chunk].PutAt(pos.tile.x, pos.tile.y, t)]
  }

  /** The world after `crops.insert(tile, crop)` on one chunk. */
  function WithCrop(v: WorldView, pos: MapPos, crop: CropData): (r: WorldView)
    requires pos.chunk in v
    ensures r.Keys == v.Keys && CropAt(r, pos) == Some(crop)
    ensures forall q | q != pos :: CropAt(r, q) == CropAt(v, q)
    ensures forall c | c in v :: r[c].tiles == v[c].tiles
  {
    v[pos.chunk := v[pos.chunk].(crops := v[pos.chunk].crops[pos.tile := crop])]
  }

  /** The world after `crops.remove(tile)` on one chunk. */
  function WithoutCrop(v: WorldView, pos: MapPos): (r: WorldView)
    requires pos.chunk in v
    ensures r.Keys == v.Keys && CropAt(r, pos) == None
    ensures forall q | q != pos :: CropAt(r, q) == CropAt(v, q)
    ensures forall c | c in v :: r[c].tiles == v[c].tiles
  {
    v[pos.chunk := v[pos.chunk].(crops := v[pos.chunk].crops - {pos.tile})]
  }

  /** The x and y coordinates the nested `for` loops of `Default` visit. */
  const Preload: seq<int> := [-1, 0]

  const PreloadedChunks: set<ChunkPos> :=
    {ChunkPos(-1, -1), ChunkPos(-1, 0), ChunkPos(0, -1), ChunkPos(0, 0)}

  /** `WorldData::default()` as a value. */
  function DefaultView(): WorldView {
    map c | c in PreloadedChunks :: EmptyChunk()
  }

  /**
   * The default world holds exactly the four chunks {-1, 0} x {-1, 0}, each
   * one a default chunk: every tile untilled grass, no crop anywhere.
   */
  lemma DefaultViewShape(c: ChunkPos, x: nat, y: nat)
    requires x < ChunkSize && y < ChunkSize
    ensures DefaultView().Keys == PreloadedChunks
    ensures |DefaultView()| == 4
    ensures ValidView(DefaultView())
    ensures c in DefaultView() ==> DefaultView()[c].crops == map[] && DefaultView()[c].At(x, y) == DefaultTile
    ensures forall pos: MapPos :: CropAt(DefaultView(), pos) == None
  {
    var keys := DefaultView().Keys;
    assert keys == PreloadedChunks;
    assert |PreloadedChunks| == 4 by {
      var a := {ChunkPos(-1, -1)};
      var b := a + {ChunkPos(-1, 0)};
      var d := b + {ChunkPos(0, -1)};
      assert |b| == 2;
      assert |d| == 3;
      assert PreloadedChunks == d + {ChunkPos(0, 0)};
    }
    EmptyChunkIsDefault(x, y);
  }

  /** The `k`-th chunk coordinate the nested loops of `Default` insert. */
  function PreloadKey(k: nat): ChunkPos
    requires k < 4
  {
    ChunkPos(Preload[k / 2], Preload[k % 2])
  }

  /** The coordinates inserted by the first `n` iterations of the inner loop body. */
  ghost function InsertedKeys(n: nat): set<ChunkPos>
    requires n <= 4
  {
    if n == 0 then {} else InsertedKeys(n - 1) + {PreloadKey(n - 1)}
  }

  /** Every chunk of `m` is a distinct default chunk whose objects are in `r`. */
  ghost predicate DefaultChunks(m: map<ChunkPos, Chunk>, r: set<object>)
    reads r
  {
    && (forall c | c in m :: m[c] in r && m[c].tiles in r)
    && (forall c | c in m :: m[c].Valid() && m[c].Value() == EmptyChunk())
    && (forall c, d | c in m && d in m && c != d :: m[c] != m[d] && m[c].tiles != m[d].tiles)
  }

  /** Adding a default chunk whose objects are outside `r` keeps `DefaultChunks`. */
  lemma AddDefaultChunk(m: map<ChunkPos, Chunk>, r: set<object>, key: ChunkPos, chunk: Chunk)
    requires DefaultChunks(m, r) && key !in m
    requires chunk !in r && chunk.tiles !in r
    requires chunk.Valid() && chunk.Value() == EmptyChunk()
    ensures DefaultChunks(m[key := chunk], r + {chunk, chunk.tiles})
  {
  }

  /** `WorldData`: the chunks, each a separate object with its own tile array. */
  class World {
    var chunks: map<ChunkPos, Chunk>
    ghost var Repr: set<object>

    ghost predicate Valid()
      reads this, Repr
    {
      && (forall c | c in chunks :: chunks[c] in Repr && chunks[c].tiles in Repr && chunks[c].Valid())
      && (forall c, d | c in chunks && d in chunks && c != d :: chunks[c] != chunks[d] && chunks[c].tiles != chunks[d].tiles)
    }

    /** The world as a value. */
    ghost function View(): (v: WorldView)
      reads this, Repr
      requires Valid()
      ensures v.Keys == chunks.Keys && ValidView(v)
    {
      map c | c in chunks :: chunks[c].Value()
    }

    /** `WorldData::default()`: two nested loops inserting a default chunk each. */
    constructor Default()
      ensures Valid() && fresh(Repr)
      ensures View() == DefaultView()
    {
      var m: map<ChunkPos, Chunk> := map[];
      ghost var r: set<object> := {};
      var i := 0;
      while i < |Preload|
        invariant 0 <= i <= |Preload|
        invariant m.Keys == InsertedKeys(2 * i)
        invariant fresh(r) && DefaultChunks(m, r)
      {
        m, r := InsertRow(m, r, i);
        i := i + 1;
      }
      assert InsertedKeys(4) == PreloadedChunks by {
        assert InsertedKeys(2) == {ChunkPos(-1, -1), ChunkPos(-1, 0)};
      }
      chunks := m;
      Repr := r;
      new;
      DefaultWorld(this);
    }

    /** The inner loop of `WorldData::default()`: one default chunk per entry of `Preload`. */
    static method InsertRow(m0: map<ChunkPos, Chunk>, ghost r0: set<object>, i: nat)
      returns (m: map<ChunkPos, Chunk>, ghost r: set<object>)
      requires i < |Preload| && m0.Keys == InsertedKeys(2 * i) && DefaultChunks(m0, r0)
      ensures m.Keys == InsertedKeys(2 * i + 2) && DefaultChunks(m, r)
      ensures r0 <= r && fresh(r - r0)
    {
      m, r := m0, r0;
      var j := 0;
      while j < |Preload|
        invariant 0 <= j <= |Preload|
        invariant m.Keys == InsertedKeys(2 * i + j)
        invariant r0 <= r && fresh(r - r0) && DefaultChunks(m, r)
      {
        var chunk := new Chunk.Default();
        var key := ChunkPos(Preload[i], Preload[j]);
        assert key == PreloadKey(2 * i + j);
        AddDefaultChunk(m, r, key, chunk);
        m := m[key := chunk];
        r := r + {chunk, chunk.tiles};
        j := j + 1;
      }
    }

    /** `chunks.get_mut(&pos.chunk).unwrap().set_at_pos(&pos.tile, value)`. */
    method SetAtPos(pos: MapPos, value: bool)
      requires Valid() && HasTile(View(), pos)
      modifies Repr
      ensures Valid() && Repr == old(Repr) && chunks == old(chunks)
      ensures View() == SetTilledIn(old(View()), pos, value)
    {
      var chunk := chunks[pos.chunk];
      chunk.SetAtPos(pos.tile, value);
      assert View() == SetTilledIn(old(View()), pos, value);
    }

    /** `*chunks.get_mut(&pos.chunk).unwrap().at_pos_mut(&pos.tile) = t`. */
    method PutTile(pos: MapPos, t: TileData)
      requires Valid() && HasTile(View(), pos)
      modifies Repr
      ensures Valid() && Repr == old(Repr) && chunks == old(chunks)
      ensures View() == PutTileIn(old(View()), pos, t)
    {
      var chunk := chunks[pos.chunk];
      chunk.AtPosMut(pos.tile, t);
      assert View() == PutTileIn(old(View()), pos, t);
    }

    /** `chunks.get_mut(&pos.chunk).unwrap().crops.insert(pos.tile, crop)`. */
    method InsertCrop(pos: MapPos, crop: CropData)
      requires Valid() && pos.chunk in chunks
      modifies Repr
      ensures Valid() && Repr == old(Repr) && chunks == old(chunks)
      ensures View() == WithCrop(old(View()), pos, crop)
    {
      var chunk := chunks[pos.chunk];
      chunk.crops := chunk.crops[pos.tile := crop];
      assert View() == WithCrop(old(View()), pos, crop);
    }

    /** `chunks.get_mut(&pos.chunk).unwrap().crops.remove(&pos.tile)`. */
    method RemoveCrop(pos: MapPos)
      requires Valid() && pos.chunk in chunks
      modifies Repr
      ensures Valid() && Repr == old(Repr) && chunks == old(chunks)
      ensures View() == WithoutCrop(old(View()), pos)
    {
      var chunk := chunks[pos.chunk];
      chunk.crops := chunk.crops - {pos.tile};
      assert View() == WithoutCrop(old(View()), pos);
    }
  }

  /** A world holding four distinct default chunks at the preloaded coordinates is the default world. */
  lemma DefaultWorld(w: World)
    requires DefaultChunks(w.chunks, w.Repr) && w.chunks.Keys == PreloadedChunks
    ensures w.Valid() && w.View() == DefaultView()
  {
  }
}
