/**
 * The interaction resolver (src/game/interaction.rs): hotbar selection of
 * the active tool, detection of tile interactions from the tile cursors
 * while the interact input is held, and the per-tool effect of each
 * interaction on the world, including the removal of destroyed crops.
 *
 * Event writers become returned sequences of events in the order they are
 * sent; sprite and entity spawning becomes a sequence of presentation
 * notifications.
 */
module Interactions {
  import opened Options
  import opened Items
  import opened MapPositions
  import opened Chunks
  import opened Worlds
  import opened TileEvents
  import opened TileUpdater

  /** `ActiveTool`: nothing, an item from the hotbar, or the wall builder. */
  datatype ActiveTool = NoTool | Item(item: ItemId) | Wall

  /** `PlayerAction`, with the sixth hotbar slot that selects the wall builder. */
  datatype PlayerAction =
    | Move | Up | Down | Left | Right | Interact
    | Hotbar1 | Hotbar2 | Hotbar3 | Hotbar4 | Hotbar5 | Hotbar6
    | ToggleDebugOverlay

  /** The parts of `ActionState<PlayerAction>` the resolver reads. */
  datatype ActionState = ActionState(pressed: set<PlayerAction>, justPressed: set<PlayerAction>)

  /** The hotbar action of slot `k`. */
  function Hotbar(k: nat): PlayerAction
    requires 1 <= k <= 6
  {
    [Hotbar1, Hotbar2, Hotbar3, Hotbar4, Hotbar5, Hotbar6][k - 1]
  }

  /** The tool slot `k` selects. */
  function HotbarTool(k: nat): ActiveTool
    requires 1 <= k <= 6
  {
    [Item(Tool(Hoe)), Item(Tool(Pickaxe)), Item(Tool(Scythe)),
     Item(Seed(CropId(0))), Item(Seed(CropId(1))), Wall][k - 1]
  }

  lemma HotbarSlots()
    ensures Hotbar(1) == Hotbar1 && Hotbar(2) == Hotbar2 && Hotbar(3) == Hotbar3
    ensures Hotbar(4) == Hotbar4 && Hotbar(5) == Hotbar5 && Hotbar(6) == Hotbar6
    ensures HotbarTool(1) == Item(Tool(Hoe)) && HotbarTool(2) == Item(Tool(Pickaxe))
    ensures HotbarTool(3) == Item(Tool(Scythe)) && HotbarTool(4) == Item(Seed(CropId(0)))
    ensures HotbarTool(5) == Item(Seed(CropId(1))) && HotbarTool(6) == Wall
  {
  }

  /**
   * `select_active_tool`: the lowest just-pressed hotbar slot picks the
   * tool; with no slot just pressed, or with the action state missing, the
   * tool stays as it was.
   */
  function SelectedTool(current: ActiveTool, state: Option<ActionState>): (r: ActiveTool)
    ensures state.None? ==> r == current
    ensures state.Some? && (forall k | 1 <= k <= 6 :: Hotbar(k) !in state.value.justPressed) ==> r == current
    ensures forall k | 1 <= k <= 6 && state.Some? && Hotbar(k) in state.value.justPressed
                       && (forall j | 1 <= j < k :: Hotbar(j) !in state.value.justPressed) ::
              r == HotbarTool(k)
  {
    HotbarSlots();
    if state.None? then current
    else
      var jp := state.value.justPressed;
      if Hotbar1 in jp then Item(Tool(Hoe))
      else if Hotbar2 in jp then Item(Tool(Pickaxe))
      else if Hotbar3 in jp then Item(Tool(Scythe))
      else if Hotbar4 in jp then Item(Seed(CropId(0)))
      else if Hotbar5 in jp then Item(Seed(CropId(1)))
      else if Hotbar6 in jp then Wall
      else current
  }

  /** `TileInteractionEvent`: where the tool was used, the building rotation, and the tool. */
  datatype TileInteractionEvent = TileInteractionEvent(pos: MapPos, rotation: CardinalDirection, usedTool: ActiveTool)

  /**
   * The cursor loop of `detect_tile_interactions`: each cursor whose local
   * tile differs from the memo is reported and becomes the memo; the first
   * cursor whose local tile equals the memo ends the pass. Returns the events
   * and the new memo. The memo holds only the local tile, not the chunk.
   */
  function DetectFrom(memo: Option<TilePos>, cursors: seq<MapPos>, tool: ActiveTool, rotation: CardinalDirection)
    : (r: (seq<TileInteractionEvent>, Option<TilePos>))
    decreases |cursors|
  {
    if |cursors| == 0 then ([], memo)
    else if memo == Some(cursors[0].tile) then ([], memo)
    else
      var rest := DetectFrom(Some(cursors[0].tile), cursors[1..], tool, rotation);
      ([TileInteractionEvent(cursors[0], rotation, tool)] + rest.0, rest.1)
  }

  /**
   * The pass reports a prefix of the cursors, each with the active tool and
   * rotation; the first reported tile differs from the memo and each one from
   * its predecessor; the new memo is the last reported tile; and a pass that
   * stops early stops at a cursor whose tile equals that memo.
   */
  lemma {:induction false} DetectFromShape(memo: Option<TilePos>, cursors: seq<MapPos>, tool: ActiveTool,
                                           rotation: CardinalDirection)
    decreases |cursors|
    ensures var r := DetectFrom(memo, cursors, tool, rotation);
      && |r.0| <= |cursors|
      && (forall i | 0 <= i < |r.0| :: r.0[i] == TileInteractionEvent(cursors[i], rotation, tool))
      && (|r.0| > 0 ==> memo != Some(cursors[0].tile))
      && (forall i | 0 < i < |r.0| :: cursors[i].tile != cursors[i - 1].tile)
      && r.1 == (if |r.0| == 0 then memo else Some(cursors[|r.0| - 1].tile))
      && (|r.0| < |cursors| ==> r.1 == Some(cursors[|r.0|].tile))
  {
    if |cursors| > 0 && memo != Some(cursors[0].tile) {
      var tail := cursors[1..];
      DetectFromShape(Some(cursors[0].tile), tail, tool, rotation);
      var rest := DetectFrom(Some(cursors[0].tile), tail, tool, rotation);
      var r := DetectFrom(memo, cursors, tool, rotation);
      assert r.0 == [TileInteractionEvent(cursors[0], rotation, tool)] + rest.0;
      forall i | 0 < i < |r.0|
        ensures r.0[i] == TileInteractionEvent(cursors[i], rotation, tool)
      {
        assert r.0[i] == rest.0[i - 1] && tail[i - 1] == cursors[i];
      }
      forall i | 1 < i < |r.0|
        ensures cursors[i].tile != cursors[i - 1].tile
      {
        assert tail[i - 1] == cursors[i] && tail[i - 2] == cursors[i - 1];
      }
      if |rest.0| == 0 {
        assert |r.0| < |cursors| ==> cursors[|r.0|] == tail[0];
      } else {
        assert cursors[|r.0| - 1] == tail[|rest.0| - 1];
        assert |r.0| < |cursors| ==> cursors[|r.0|] == tail[|rest.0|];
      }
    }
  }

  /** One step of the cursor loop. */
  lemma DetectFromStep(memo: Option<TilePos>, cs: seq<MapPos>, tool: ActiveTool, rotation: CardinalDirection)
    requires |cs| > 0
    ensures memo == Some(cs[0].tile) ==> DetectFrom(memo, cs, tool, rotation) == ([], memo)
    ensures memo != Some(cs[0].tile) ==>
      && DetectFrom(memo, cs, tool, rotation).0 ==
         [TileInteractionEvent(cs[0], rotation, tool)] + DetectFrom(Some(cs[0].tile), cs[1..], tool, rotation).0
      && DetectFrom(memo, cs, tool, rotation).1 == DetectFrom(Some(cs[0].tile), cs[1..], tool, rotation).1
  {
  }

  /**
   * `detect_tile_interactions`: nothing happens without an action state or
   * while Interact is not pressed; a just-pressed Interact clears the memo
   * first, so its first cursor is always reported.
   */
  function Detect(memo: Option<TilePos>, state: Option<ActionState>, cursors: seq<MapPos>,
                  tool: ActiveTool, rotation: CardinalDirection)
    : (r: (seq<TileInteractionEvent>, Option<TilePos>))
    ensures (state.None? || Interact !in state.value.pressed) ==> r == ([], memo)
    ensures state.Some? && Interact in state.value.pressed && Interact in state.value.justPressed && |cursors| > 0 ==>
              |r.0| > 0 && r.0[0].pos == cursors[0]
    ensures |r.0| <= |cursors|
    ensures forall i | 0 <= i < |r.0| :: r.0[i] == TileInteractionEvent(cursors[i], rotation, tool)
  {
    if state.None? || Interact !in state.value.pressed then ([], memo)
    else
      var start := if Interact in state.value.justPressed then None else memo;
      DetectFromShape(start, cursors, tool, rotation);
      DetectFrom(start, cursors, tool, rotation)
  }

  /**
   * Holding Interact over tiles A, A, B, B, A (one cursor per frame, the
   * first frame the press) reports exactly three interactions: frames 1, 3
   * and 5 (the first A, the first B, and the return to A) each report their
   * cursor, and frames 2 and 4 report nothing.
   */
  lemma {:induction false} HeldInputOverABBA(a: MapPos, b: MapPos, tool: ActiveTool, rotation: CardinalDirection)
    requires a.tile != b.tile
    ensures var press := Some(ActionState({Interact}, {Interact}));
      var hold := Some(ActionState({Interact}, {}));
      var f1 := Detect(None, press, [a], tool, rotation);
      var f2 := Detect(f1.1, hold, [a], tool, rotation);
      var f3 := Detect(f2.1, hold, [b], tool, rotation);
      var f4 := Detect(f3.1, hold, [b], tool, rotation);
      var f5 := Detect(f4.1, hold, [a], tool, rotation);
      && f1.0 == [TileInteractionEvent(a, rotation, tool)] && f2.0 == []
      && f3.0 == [TileInteractionEvent(b, rotation, tool)] && f4.0 == []
      && f5.0 == [TileInteractionEvent(a, rotation, tool)]
      && |f1.0| + |f2.0| + |f3.0| + |f4.0| + |f5.0| == 3
  {
    var press := Some(ActionState({Interact}, {Interact}));
    var hold := Some(ActionState({Interact}, {}));
    var f1 := Detect(None, press, [a], tool, rotation);
    SingleCursor(None, a, tool, rotation);
    var f2 := Detect(f1.1, hold, [a], tool, rotation);
    SingleCursor(f1.1, a, tool, rotation);
    var f3 := Detect(f2.1, hold, [b], tool, rotation);
    SingleCursor(f2.1, b, tool, rotation);
    var f4 := Detect(f3.1, hold, [b], tool, rotation);
    SingleCursor(f3.1, b, tool, rotation);
    var f5 := Detect(f4.1, hold, [a], tool, rotation);
    SingleCursor(f4.1, a, tool, rotation);
  }

  /** With a single cursor, the pass reports it exactly when its local tile differs from the memo. */
  lemma SingleCursor(memo: Option<TilePos>, c: MapPos, tool: ActiveTool, rotation: CardinalDirection)
    ensures DetectFrom(memo, [c], tool, rotation) ==
      if memo == Some(c.tile) then ([], memo) else ([TileInteractionEvent(c, rotation, tool)], Some(c.tile))
  {
    if memo != Some(c.tile) {
      var rest := DetectFrom(Some(c.tile), [c][1..], tool, rotation);
      assert [c][1..] == [];
      assert rest == ([], Some(c.tile));
      assert [TileInteractionEvent(c, rotation, tool)] + rest.0 == [TileInteractionEvent(c, rotation, tool)];
    }
  }

  /**
   * Because the memo keeps only the local tile, moving the held cursor to the
   * same local tile of another chunk reports nothing.
   */
  lemma {:induction false} MemoIgnoresChunk(a: MapPos, b: MapPos, tool: ActiveTool, rotation: CardinalDirection)
    requires a.tile == b.tile && a.chunk != b.chunk
    ensures var f1 := Detect(None, Some(ActionState({Interact}, {Interact})), [a], tool, rotation);
      Detect(f1.1, Some(ActionState({Interact}, {})), [b], tool, rotation).0 == []
  {
    SingleCursor(None, a, tool, rotation);
    SingleCursor(Some(a.tile), b, tool, rotation);
  }

  /** `CropHarvestedEvent`. */
  datatype CropHarvestedEvent = CropHarvestedEvent(pos: MapPos, cropId: CropId)

  /**
   * What the resolver asks of the rendering side: a plant sprite for a new
   * crop (at its position inside the chunk, lifted by 0.1 on z), a wall
   * entity on a tile edge, or the removal of a crop's sprite.
   */
  datatype Presentation =
    | SpawnPlant(pos: MapPos, cropId: CropId, translation: Vec3)
    | SpawnWall(pos: MapPos, edge: CardinalDirection)
    | DespawnCrop(pos: MapPos)

  /** Everything one or more interactions send, per event stream, in order. */
  datatype Outputs = Outputs(updates: seq<UpdateTileEvent>, destroyed: seq<MapPos>,
                             harvested: seq<CropHarvestedEvent>, presentation: seq<Presentation>) {
    function Then(o: Outputs): Outputs {
      Outputs(updates + o.updates, destroyed + o.destroyed, harvested + o.harvested, presentation + o.presentation)
    }
  }

  const NoOutputs: Outputs := Outputs([], [], [], [])

  /** The update events for a tile whose tilled flag changed: the tile itself, then its four neighbours. */
  function RetextureEvents(pos: MapPos): seq<UpdateTileEvent> {
    [UpdateTileEvent(pos.chunk, pos.tile)] + SurroundingTiles(pos.chunk, pos.tile)
  }

  /** Where `process_tile_interactions` would panic on `e`: an unwrap of a chunk, a crop definition, or an out-of-bounds tile. */
  ghost predicate CanResolve(v: WorldView, e: TileInteractionEvent, reg: Registry) {
    match e.usedTool
    case NoTool => true
    case Wall => HasTile(v, e.pos)
    case Item(item) =>
      match item
      case Crop(_) => true
      case Prop(_) => true
      case Seed(id) => HasTile(v, e.pos) && (TileAt(v, e.pos).isTilled && CropAt(v, e.pos).None? ==> id in reg)
      case Tool(t) =>
        match t
        case Hoe => HasTile(v, e.pos)
        case Pickaxe => HasTile(v, e.pos)
        case Scythe => e.pos.chunk in v && (CropAt(v, e.pos).Some? ==>
                         CropAt(v, e.pos).value.cropId in reg && CropAt(v, e.pos).value.stage < 255)
  }

  /**
   * The effect of one interaction event: the new world and what it sends.
   * `loaded` holds the chunks that are currently displayed.
   */
  ghost function Resolve(v: WorldView, e: TileInteractionEvent, now: real, reg: Registry, loaded: set<ChunkPos>)
    : (WorldView, Outputs)
    requires CanResolve(v, e, reg)
  {
    var pos := e.pos;
    match e.usedTool
    case NoTool => (v, NoOutputs)
    case Wall =>
      var tile := TileAt(v, pos);
      if tile.walls.At(e.rotation) then (v, NoOutputs)
      else
        (PutTileIn(v, pos, tile.(walls := tile.walls.SetAt(e.rotation, true))),
         NoOutputs.(presentation := if pos.chunk in loaded then [SpawnWall(pos, e.rotation)] else []))
    case Item(item) =>
      match item
      case Crop(_) => (v, NoOutputs)
      case Prop(_) => (v, NoOutputs)
      case Seed(id) =>
        if !TileAt(v, pos).isTilled || CropAt(v, pos).Some? then (v, NoOutputs)
        else
          var lifted := pos.PosInsideChunk(0.0).(z := pos.PosInsideChunk(0.0).z + 0.1);
          (WithCrop(v, pos, NewCrop(reg[id], now)),
           NoOutputs.(presentation := if pos.chunk in loaded then [SpawnPlant(pos, id, lifted)] else []))
      case Tool(t) =>
        match t
        case Hoe =>
          if TileAt(v, pos).isTilled then (v, NoOutputs)
          else (SetTilledIn(v, pos, true),
                NoOutputs.(updates := if pos.chunk in loaded then RetextureEvents(pos) else []))
        case Pickaxe =>
          if !TileAt(v, pos).isTilled then (v, NoOutputs)
          else if CropAt(v, pos).Some? then (v, NoOutputs.(destroyed := [pos]))
          else (SetTilledIn(v, pos, false),
                NoOutputs.(updates := if pos.chunk in loaded then RetextureEvents(pos) else []))
        case Scythe =>
          var crop := CropAt(v, pos);
          if crop.Some? && crop.value.stage + 1 >= reg[crop.value.cropId].stages then
            (v, NoOutputs.(harvested := [CropHarvestedEvent(pos, crop.value.cropId)], destroyed := [pos]))
          else (v, NoOutputs)
  }

  /** The interactions of one frame resolved in order, each against the world the previous ones left. */
  ghost function ResolveAll(v: WorldView, es: seq<TileInteractionEvent>, now: real, reg: Registry, loaded: set<ChunkPos>)
    : (WorldView, Outputs)
    requires CanResolveAll(v, es, now, reg, loaded)
    decreases |es|, 1
  {
    if |es| == 0 then (v, NoOutputs)
    else
      var before := ResolveAll(v, es[..|es| - 1], now, reg, loaded);
      var last := Resolve(before.0, es[|es| - 1], now, reg, loaded);
      (last.0, before.1.Then(last.1))
  }

  /** No interaction of the frame panics, each judged on the world the previous ones left. */
  ghost predicate CanResolveAll(v: WorldView, es: seq<TileInteractionEvent>, now: real, reg: Registry, loaded: set<ChunkPos>)
    decreases |es|, 0
  {
    |es| == 0 ||
    (CanResolveAll(v, es[..|es| - 1], now, reg, loaded) &&
     CanResolve(ResolveAll(v, es[..|es| - 1], now, reg, loaded).0, es[|es| - 1], reg))
  }

  /** Every prefix of a frame that does not panic does not panic either. */
  lemma {:induction false} CanResolvePrefix(v: WorldView, es: seq<TileInteractionEvent>, k: nat, now: real,
                                            reg: Registry, loaded: set<ChunkPos>)
    requires CanResolveAll(v, es, now, reg, loaded) && k <= |es|
    ensures CanResolveAll(v, es[..k], now, reg, loaded)
    decreases |es| - k
  {
    if k < |es| {
      CanResolvePrefix(v, es, k + 1, now, reg, loaded);
      assert es[..k + 1][..k] == es[..k];
    } else {
      assert es[..k] == es;
    }
  }

  /** A tile in a chunk that exists, with an in-bounds index. */
  ghost predicate Addressable(v: WorldView, e: TileInteractionEvent, reg: Registry) {
    && e.pos.chunk in v && InChunk(e.pos.tile)
    && (e.usedTool.Item? && e.usedTool.item.Seed? ==> e.usedTool.item.cropId in reg)
  }

  /**
   * Under the world invariant an interaction on an in-chunk tile of an
   * existing chunk never panics, and afterwards the invariant still holds:
   * crops stay on tilled tiles (the pickaxe untills only a tile without a
   * crop), and a new crop is consistent with its definition.
   */
  lemma {:induction false} ResolveKeepsInvariant(v: WorldView, e: TileInteractionEvent, now: real,
                                                 reg: Registry, loaded: set<ChunkPos>)
    requires WorldInvariant(v, reg) && Addressable(v, e, reg)
    ensures CanResolve(v, e, reg)
    ensures Resolve(v, e, now, reg, loaded).0.Keys == v.Keys
    ensures WorldInvariant(Resolve(v, e, now, reg, loaded).0, reg)
  {
    IndexBijection(e.pos.tile.x, e.pos.tile.y, 0, 0, 0);
    assert HasTile(v, e.pos);
    var r := Resolve(v, e, now, reg, loaded).0;
    forall q | CropAt(r, q).Some?
      ensures InChunk(q.tile) && HasTile(r, q) && TileAt(r, q).isTilled && CropInvariant(CropAt(r, q).value, reg)
    {
      if q == e.pos && CropAt(v, q).None? {
        NewCropKeepsInvariant(reg[e.usedTool.item.cropId], reg, now);
      } else {
        assert CropAt(v, q).Some?;
        IndexBijection(q.tile.x, q.tile.y, e.pos.tile.x, e.pos.tile.y, 0);
      }
    }
  }

  /** The whole frame keeps the world invariant when every interaction addresses an existing in-chunk tile. */
  lemma {:induction false} ResolveAllKeepsInvariant(v: WorldView, es: seq<TileInteractionEvent>, now: real,
                                                    reg: Registry, loaded: set<ChunkPos>)
    requires WorldInvariant(v, reg) && forall i | 0 <= i < |es| :: Addressable(v, es[i], reg)
    ensures CanResolveAll(v, es, now, reg, loaded)
    ensures ResolveAll(v, es, now, reg, loaded).0.Keys == v.Keys
    ensures WorldInvariant(ResolveAll(v, es, now, reg, loaded).0, reg)
    decreases |es|
  {
    if |es| > 0 {
      var init := es[..|es| - 1];
      ResolveAllKeepsInvariant(v, init, now, reg, loaded);
      var before := ResolveAll(v, init, now, reg, loaded).0;
      assert Addressable(before, es[|es| - 1], reg);
      ResolveKeepsInvariant(before, es[|es| - 1], now, reg, loaded);
    }
  }

  /**
   * The hoe tills an untilled tile and asks for the tile and its four
   * neighbours to be retextured when the chunk is displayed; on a tilled
   * tile it does nothing.
   */
  lemma HoeEffect(v: WorldView, pos: MapPos, rotation: CardinalDirection, now: real, reg: Registry, loaded: set<ChunkPos>)
    requires HasTile(v, pos)
    ensures var r := Resolve(v, TileInteractionEvent(pos, rotation, Item(Tool(Hoe))), now, reg, loaded);
      && HasTile(r.0, pos) && TileAt(r.0, pos).isTilled
      && TileAt(r.0, pos).groundType == TileAt(v, pos).groundType
      && (forall q :: CropAt(r.0, q) == CropAt(v, q))
      && r.1.destroyed == [] && r.1.harvested == []
      && (TileAt(v, pos).isTilled ==> r == (v, NoOutputs))
      && (!TileAt(v, pos).isTilled ==>
            r.1 == NoOutputs.(updates := if pos.chunk in loaded then RetextureEvents(pos) else []))
  {
  }

  /**
   * The pickaxe does nothing on an untilled tile, only reports a crop on a
   * planted tile (which stays tilled), and otherwise untills the tile.
   */
  lemma PickaxeEffect(v: WorldView, pos: MapPos, rotation: CardinalDirection, now: real, reg: Registry, loaded: set<ChunkPos>)
    requires HasTile(v, pos)
    ensures var r := Resolve(v, TileInteractionEvent(pos, rotation, Item(Tool(Pickaxe))), now, reg, loaded);
      && (!TileAt(v, pos).isTilled ==> r == (v, NoOutputs))
      && (TileAt(v, pos).isTilled && CropAt(v, pos).Some? ==> r == (v, NoOutputs.(destroyed := [pos])))
      && (TileAt(v, pos).isTilled && CropAt(v, pos).None? ==>
            && HasTile(r.0, pos) && !TileAt(r.0, pos).isTilled
            && TileAt(r.0, pos).groundType == TileAt(v, pos).groundType
            && (forall q :: CropAt(r.0, q) == CropAt(v, q))
            && r.1 == NoOutputs.(updates := if pos.chunk in loaded then RetextureEvents(pos) else []))
  {
  }

  /**
   * The update events sent for a re-tilled in-chunk tile are five distinct
   * addresses: the tile first, then exactly the four tiles adjacent to it.
   */
  lemma {:induction false} RetextureEventsAreTheTileAndItsNeighbours(pos: MapPos, q: MapPos)
    requires InChunk(pos.tile)
    ensures |RetextureEvents(pos)| == 5 && RetextureEvents(pos)[0].Address() == pos
    ensures forall i, j | 0 <= i < 5 && 0 <= j < 5 && i != j :: RetextureEvents(pos)[i] != RetextureEvents(pos)[j]
    ensures InChunk(q.tile) ==>
      ((exists i | 1 <= i < 5 :: RetextureEvents(pos)[i].Address() == q) <==> Adjacent(pos, q))
  {
    var r := RetextureEvents(pos);
    var s := SurroundingTiles(pos.chunk, pos.tile);
    SurroundingTilesAreTheNeighbours(pos.chunk, pos.tile, q);
    assert forall i | 1 <= i < 5 :: r[i] == s[i - 1];
    assert forall i | 1 <= i < 5 :: r[i] != r[0] by {
      forall i | 1 <= i < 5 ensures r[i] != r[0] {
        assert s[i - 1].Address() != pos;
      }
    }
    if InChunk(q.tile) {
      if exists i | 1 <= i < 5 :: r[i].Address() == q {
        var i :| 1 <= i < 5 && r[i].Address() == q;
        assert s[i - 1].Address() == q;
      }
      if exists k | 0 <= k < 4 :: s[k].Address() == q {
        var k :| 0 <= k < 4 && s[k].Address() == q;
        assert r[k + 1].Address() == q;
      }
    }
  }

  /**
   * Under the world invariant the scythe harvests exactly the crops that
   * have reached their last stage (the ones the scheduler no longer
   * advances), sending the harvest before the destruction, and never
   * changes the world.
   */
  lemma ScytheHarvestsExactlyTerminalCrops(v: WorldView, pos: MapPos, rotation: CardinalDirection, now: real,
                                           reg: Registry, loaded: set<ChunkPos>)
    requires WorldInvariant(v, reg) && pos.chunk in v
    ensures CanResolve(v, TileInteractionEvent(pos, rotation, Item(Tool(Scythe))), reg)
    ensures var r := Resolve(v, TileInteractionEvent(pos, rotation, Item(Tool(Scythe))), now, reg, loaded);
      && r.0 == v && r.1.updates == [] && r.1.presentation == []
      && (r.1 != NoOutputs <==> CropAt(v, pos).Some? && CropAt(v, pos).value.nextStageAt.None?)
      && (r.1 != NoOutputs ==>
            r.1.harvested == [CropHarvestedEvent(pos, CropAt(v, pos).value.cropId)] && r.1.destroyed == [pos])
  {
  }

  /**
   * A seed is planted only on a tilled tile without a crop; the new crop is
   * at stage 0 and due one growth period after `now`.
   */
  lemma SeedEffect(v: WorldView, pos: MapPos, id: CropId, rotation: CardinalDirection, now: real,
                   reg: Registry, loaded: set<ChunkPos>)
    requires HasTile(v, pos) && id in reg
    ensures var r := Resolve(v, TileInteractionEvent(pos, rotation, Item(Seed(id))), now, reg, loaded);
      && (!TileAt(v, pos).isTilled || CropAt(v, pos).Some? ==> r == (v, NoOutputs))
      && (TileAt(v, pos).isTilled && CropAt(v, pos).None? ==>
            && CropAt(r.0, pos).Some? && CropAt(r.0, pos).value.stage == 0 && CropAt(r.0, pos).value.cropId == reg[id].id
            && CropAt(r.0, pos).value.nextStageAt == Some(now + reg[id].growthTimePerStage as real)
            && (forall q | q != pos :: CropAt(r.0, q) == CropAt(v, q))
            && HasTile(r.0, pos) && TileAt(r.0, pos) == TileAt(v, pos)
            && r.1 == NoOutputs.(presentation :=
                 if pos.chunk in loaded then [SpawnPlant(pos, id, Vec3(pos.tile.x as real, 0.0, pos.tile.y as real + 0.1))]
                 else []))
  {
  }

  /** The wall builder sets the chosen edge once; on an edge already set it does nothing. */
  lemma WallEffect(v: WorldView, pos: MapPos, rotation: CardinalDirection, now: real, reg: Registry, loaded: set<ChunkPos>)
    requires HasTile(v, pos)
    ensures var r := Resolve(v, TileInteractionEvent(pos, rotation, Wall), now, reg, loaded);
      && HasTile(r.0, pos) && TileAt(r.0, pos).walls.At(rotation)
      && TileAt(r.0, pos).isTilled == TileAt(v, pos).isTilled
      && (forall d | d != rotation :: TileAt(r.0, pos).walls.At(d) == TileAt(v, pos).walls.At(d))
      && (forall q :: CropAt(r.0, q) == CropAt(v, q))
      && (TileAt(v, pos).walls.At(rotation) ==> r == (v, NoOutputs))
      && (!TileAt(v, pos).walls.At(rotation) ==>
            r.1 == NoOutputs.(presentation := if pos.chunk in loaded then [SpawnWall(pos, rotation)] else []))
  {
  }

  /** Using no tool, a harvested crop or a prop changes nothing and sends nothing. */
  lemma InertToolsDoNothing(v: WorldView, pos: MapPos, rotation: CardinalDirection, tool: ActiveTool, now: real,
                            reg: Registry, loaded: set<ChunkPos>)
    requires tool.NoTool? || (tool.Item? && (tool.item.Crop? || tool.item.Prop?))
    ensures Resolve(v, TileInteractionEvent(pos, rotation, tool), now, reg, loaded) == (v, NoOutputs)
  {
  }

  /** `process_delete_crops` as a value: removes the crop at each reported position, if any. */
  ghost function DeleteCrops(v: WorldView, ps: seq<MapPos>, loaded: set<ChunkPos>): (r: (WorldView, seq<Presentation>))
    requires forall i | 0 <= i < |ps| :: ps[i].chunk in v
    ensures r.0.Keys == v.Keys
    decreases |ps|
  {
    if |ps| == 0 then (v, [])
    else
      var before := DeleteCrops(v, ps[..|ps| - 1], loaded);
      var p := ps[|ps| - 1];
      if CropAt(before.0, p).Some? then
        (WithoutCrop(before.0, p), if p.chunk in loaded then before.1 + [DespawnCrop(p)] else before.1)
      else before
  }

  /**
   * After the destroy notifications are processed no reported position holds
   * a crop; every other crop, every tile and the set of chunks are unchanged.
   */
  lemma {:induction false} DeleteCropsShape(v: WorldView, ps: seq<MapPos>, loaded: set<ChunkPos>)
    requires forall i | 0 <= i < |ps| :: ps[i].chunk in v
    ensures forall c | c in v :: DeleteCrops(v, ps, loaded).0[c].tiles == v[c].tiles
    ensures forall i | 0 <= i < |ps| :: CropAt(DeleteCrops(v, ps, loaded).0, ps[i]) == None
    ensures forall q | q !in ps :: CropAt(DeleteCrops(v, ps, loaded).0, q) == CropAt(v, q)
    decreases |ps|
  {
    if |ps| > 0 {
      var init := ps[..|ps| - 1];
      DeleteCropsShape(v, init, loaded);
      forall q | q !in ps
        ensures CropAt(DeleteCrops(v, ps, loaded).0, q) == CropAt(v, q)
      {
        assert q !in init;
      }
      forall i | 0 <= i < |ps|
        ensures CropAt(DeleteCrops(v, ps, loaded).0, ps[i]) == None
      {
        if i < |ps| - 1 {
          assert ps[i] == init[i];
        }
      }
    }
  }

  /** Removing crops keeps the world invariant. */
  lemma DeleteCropsKeepsInvariant(v: WorldView, ps: seq<MapPos>, loaded: set<ChunkPos>, reg: Registry)
    requires WorldInvariant(v, reg) && forall i | 0 <= i < |ps| :: ps[i].chunk in v
    ensures WorldInvariant(DeleteCrops(v, ps, loaded).0, reg)
  {
    DeleteCropsShape(v, ps, loaded);
    var r := DeleteCrops(v, ps, loaded).0;
    forall q | CropAt(r, q).Some?
      ensures InChunk(q.tile) && HasTile(r, q) && TileAt(r, q).isTilled && CropInvariant(CropAt(r, q).value, reg)
    {
      assert CropAt(v, q).Some?;
    }
  }

  /**
   * A pickaxe on a planted tile followed by the destroy handling leaves the
   * tile tilled and without a crop.
   */
  lemma PickaxeThenDeleteClearsCrop(v: WorldView, pos: MapPos, rotation: CardinalDirection, now: real,
                                    reg: Registry, loaded: set<ChunkPos>)
    requires HasTile(v, pos) && TileAt(v, pos).isTilled && CropAt(v, pos).Some?
    ensures var r := Resolve(v, TileInteractionEvent(pos, rotation, Item(Tool(Pickaxe))), now, reg, loaded);
      var d := DeleteCrops(r.0, r.1.destroyed, loaded).0;
      HasTile(d, pos) && TileAt(d, pos).isTilled && CropAt(d, pos) == None
  {
    var r := Resolve(v, TileInteractionEvent(pos, rotation, Item(Tool(Pickaxe))), now, reg, loaded);
    DeleteCropsShape(r.0, r.1.destroyed, loaded);
    assert r.1.destroyed[0] == pos;
  }

  /** `process_delete_crops`: for every destroy notification, removes the crop if one is there. */
  method ProcessDeleteCrops(world: World, ps: seq<MapPos>, loaded: set<ChunkPos>) returns (shown: seq<Presentation>)
    requires world.Valid() && forall i | 0 <= i < |ps| :: ps[i].chunk in world.chunks
    modifies world.Repr
    ensures world.Valid() && world.Repr == old(world.Repr) && world.chunks == old(world.chunks)
    ensures (world.View(), shown) == DeleteCrops(old(world.View()), ps, loaded)
  {
    ghost var v0 := world.View();
    shown := [];
    var i := 0;
    while i < |ps|
      invariant 0 <= i <= |ps|
      invariant world.Valid() && world.Repr == old(world.Repr) && world.chunks == old(world.chunks)
      invariant (world.View(), shown) == DeleteCrops(v0, ps[..i], loaded)
    {
      var p := ps[i];
      assert ps[..i + 1][..i] == ps[..i] && ps[..i + 1][i] == p;
      ghost var before := DeleteCrops(v0, ps[..i], loaded);
      assert DeleteCrops(v0, ps[..i + 1], loaded) ==
        if CropAt(before.0, p).Some? then
          (WithoutCrop(before.0, p), if p.chunk in loaded then before.1 + [DespawnCrop(p)] else before.1)
        else before;
      var chunk := world.chunks[p.chunk];
      if p.tile in chunk.crops {
        assert CropAt(world.View(), p).Some?;
        world.RemoveCrop(p);
        if p.chunk in loaded {
          shown := shown + [DespawnCrop(p)];
        }
      } else {
        assert CropAt(world.View(), p).None?;
      }
      i := i + 1;
    }
    assert ps[..|ps|] == ps;
  }

  /**
   * One iteration of the `process_tile_interactions` loop, on the world in
   * place; a `continue` of the source is an early exit of its branch here.
   */
  method ResolveOne(world: World, e: TileInteractionEvent, now: real, reg: Registry, loaded: set<ChunkPos>)
    returns (out: Outputs)
    requires world.Valid() && CanResolve(world.View(), e, reg)
    modifies world.Repr
    ensures world.Valid() && world.Repr == old(world.Repr) && world.chunks == old(world.chunks)
    ensures (world.View(), out) == Resolve(old(world.View()), e, now, reg, loaded)
  {
    out := NoOutputs;
    var pos := e.pos;
    match e.usedTool
    case NoTool =>
    case Wall =>
      var tile := world.chunks[pos.chunk].AtPos(pos.tile);
      if !tile.walls.At(e.rotation) {
        world.PutTile(pos, tile.(walls := tile.walls.SetAt(e.rotation, true)));
        if pos.chunk in loaded {
          out := out.(presentation := [SpawnWall(pos, e.rotation)]);
        }
      }
    case Item(item) =>
      match item
      case Crop(_) =>
      case Prop(_) =>
      case Seed(cropId) =>
        var chunk := world.chunks[pos.chunk];
        if chunk.AtPos(pos.tile).isTilled && pos.tile !in chunk.crops {
          var def := reg[cropId];
          world.InsertCrop(pos, NewCrop(def, now));
          if pos.chunk in loaded {
            var inside := pos.PosInsideChunk(0.0);
            out := out.(presentation := [SpawnPlant(pos, cropId, inside.(z := inside.z + 0.1))]);
          }
        }
      case Tool(toolId) =>
        match toolId
        case Hoe =>
          var chunk := world.chunks[pos.chunk];
          if !chunk.AtPos(pos.tile).isTilled {
            world.SetAtPos(pos, true);
            if pos.chunk in loaded {
              out := out.(updates := [UpdateTileEvent(pos.chunk, pos.tile)] + SurroundingTiles(pos.chunk, pos.tile));
            }
          }
        case Pickaxe =>
          var chunk := world.chunks[pos.chunk];
          if chunk.AtPos(pos.tile).isTilled {
            if pos.tile in chunk.crops {
              out := out.(destroyed := [pos]);
            } else {
              world.SetAtPos(pos, false);
              if pos.chunk in loaded {
                out := out.(updates := [UpdateTileEvent(pos.chunk, pos.tile)] + SurroundingTiles(pos.chunk, pos.tile));
              }
            }
          }
        case Scythe =>
          var chunk := world.chunks[pos.chunk];
          if pos.tile in chunk.crops {
            var crop := chunk.crops[pos.tile];
            if crop.stage + 1 >= reg[crop.cropId].stages {
              out := out.(harvested := [CropHarvestedEvent(pos, crop.cropId)], destroyed := [pos]);
            }
          }
  }

  /** `process_tile_interactions`: resolves the frame's interactions in order, on the world in place. */
  method ProcessTileInteractions(world: World, es: seq<TileInteractionEvent>, now: real, reg: Registry,
                                 loaded: set<ChunkPos>)
    returns (out: Outputs)
    requires world.Valid() && CanResolveAll(world.View(), es, now, reg, loaded)
    modifies world.Repr
    ensures world.Valid() && world.Repr == old(world.Repr) && world.chunks == old(world.chunks)
    ensures (world.View(), out) == ResolveAll(old(world.View()), es, now, reg, loaded)
  {
    ghost var v0 := world.View();
    out := NoOutputs;
    var i := 0;
    while i < |es|
      invariant 0 <= i <= |es|
      invariant world.Valid() && world.Repr == old(world.Repr) && world.chunks == old(world.chunks)
      invariant CanResolveAll(v0, es[..i], now, reg, loaded)
      invariant (world.View(), out) == ResolveAll(v0, es[..i], now, reg, loaded)
    {
      CanResolvePrefix(v0, es, i + 1, now, reg, loaded);
      assert es[..i + 1][..i] == es[..i];
      var step := ResolveOne(world, es[i], now, reg, loaded);
      out := out.Then(step);
      i := i + 1;
    }
    assert es[..|es|] == es;
  }

  /**
   * The interaction state the systems share: the `ActiveTool` and
   * `BuildingRotation` resources and the detection system's memo of the last
   * interacted local tile.
   */
  class InteractionState {
    var activeTool: ActiveTool
    var rotation: CardinalDirection
    var previouslyInteractedTile: Option<TilePos>

    /** The start of a game: no tool, facing north, nothing interacted with yet. */
    constructor ()
      ensures activeTool == NoTool && rotation == North && previouslyInteractedTile == None
    {
      activeTool := NoTool;
      rotation := North;
      previouslyInteractedTile := None;
    }

    /** `select_active_tool`. */
    method SelectActiveTool(state: Option<ActionState>)
      modifies this
      ensures activeTool == SelectedTool(old(activeTool), state)
      ensures rotation == old(rotation) && previouslyInteractedTile == old(previouslyInteractedTile)
    {
      if state.None? {
        return;
      }
      var jp := state.value.justPressed;
      if Hotbar1 in jp {
        activeTool := Item(Tool(Hoe));
      } else if Hotbar2 in jp {
        activeTool := Item(Tool(Pickaxe));
      } else if Hotbar3 in jp {
        activeTool := Item(Tool(Scythe));
      } else if Hotbar4 in jp {
        activeTool := Item(Seed(CropId(0)));
      } else if Hotbar5 in jp {
        activeTool := Item(Seed(CropId(1)));
      } else if Hotbar6 in jp {
        activeTool := Wall;
      }
    }

    /** `detect_tile_interactions`, over the cursors in query order. */
    method DetectTileInteractions(state: Option<ActionState>, cursors: seq<MapPos>)
      returns (events: seq<TileInteractionEvent>)
      modifies this
      ensures (events, previouslyInteractedTile) ==
              Detect(old(previouslyInteractedTile), state, cursors, activeTool, rotation)
      ensures activeTool == old(activeTool) && rotation == old(rotation)
    {
      events := [];
      if state.None? || Interact !in state.value.pressed {
        return;
      }
      var memo := previouslyInteractedTile;
      var tool, rot := activeTool, rotation;
      if Interact in state.value.justPressed {
        memo := None;
      }
      ghost var start := memo;
      assert cursors[0..] == cursors;
      var i := 0;
      while i < |cursors|
        invariant 0 <= i <= |cursors|
        invariant unchanged(this)
        invariant DetectFrom(start, cursors, tool, rot).0 ==
                  events + DetectFrom(memo, cursors[i..], tool, rot).0
        invariant DetectFrom(start, cursors, tool, rot).1 == DetectFrom(memo, cursors[i..], tool, rot).1
      {
        var cursor := cursors[i];
        DetectFromStep(memo, cursors[i..], tool, rot);
        if memo == Some(cursor.tile) {
          break;
        }
        assert cursors[i..][1..] == cursors[i + 1..];
        var event := TileInteractionEvent(cursor, rot, tool);
        ghost var rest := DetectFrom(Some(cursor.tile), cursors[i + 1..], tool, rot);
        assert events + ([event] + rest.0) == (events + [event]) + rest.0;
        memo := Some(cursor.tile);
        events := events + [event];
        i := i + 1;
      }
      if i == |cursors| {
        assert cursors[i..] == [];
      }
      assert DetectFrom(memo, cursors[i..], tool, rot) == ([], memo);
      assert events + [] == events;
      previouslyInteractedTile := memo;
    }
  }
}
