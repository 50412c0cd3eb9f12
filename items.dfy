/**
 * Item identifiers of the data crate (crates/data/src/item_id.rs) and the
 * crop definitions they are resolved against (crates/data/src/item_definitions.rs).
 */
module Items {

  /** Rust's `u32`. */
  type uint32 = x: int | 0 <= x < 0x1_0000_0000

  /** `CropId(pub u32)`. */
  datatype CropId = CropId(value: uint32)

  /** The id of a placeable prop; `ItemId::Prop` carries one. */
  datatype PropId = PropId(value: uint32)

  datatype ToolId = Hoe | Pickaxe | Scythe

  /** `ItemId`, including the `Prop` variant that the interaction code matches on. */
  datatype ItemId =
    | Crop(cropId: CropId)
    | Seed(cropId: CropId)
    | Tool(toolId: ToolId)
    | Prop(propId: PropId)

  /**
   * The parts of a `CropDefinition` the simulation reads: the id, the display
   * name, the number of growth stages (`u8`) and the seconds per stage (`u32`).
   */
  datatype CropDefinition = CropDefinition(id: CropId, name: string, stages: nat, growthTimePerStage: uint32)

  /** The crop part of `AllItems`: a map from crop id to its definition. */
  type Registry = map<CropId, CropDefinition>

  /**
   * A registry whose entries are keyed by their own id and whose stage counts
   * fit a `u8` and have at least one growing stage before the last.
   */
  predicate ValidRegistry(reg: Registry) {
    forall id | id in reg :: reg[id].id == id && 2 <= reg[id].stages <= 255
  }

  /** The two hard-coded crops (src/load.rs). */
  function DebugRegistry(): (reg: Registry)
    ensures ValidRegistry(reg)
    ensures reg.Keys == {CropId(0), CropId(1)}
    ensures reg[CropId(0)].stages == 4 && reg[CropId(0)].growthTimePerStage == 5
    ensures reg[CropId(1)].stages == 4 && reg[CropId(1)].growthTimePerStage == 1
  {
    map[CropId(0) := CropDefinition(CropId(0), "Blue Debug Plant", 4, 5),
        CropId(1) := CropDefinition(CropId(1), "Red Debug Plant", 4, 1)]
  }

  /** `Display for ToolId`. */
  function ToolName(t: ToolId): string {
    match t
    case Hoe => "Hoe"
    case Pickaxe => "Pickaxe"
    case Scythe => "Scythe"
  }

  /** Different tools are displayed differently. */
  lemma ToolNamesDistinct(a: ToolId, b: ToolId)
    ensures ToolName(a) == ToolName(b) <==> a == b
  {
    if a != b {
      match a
      case Hoe => assert ToolName(a)[0] != ToolName(b)[0];
      case Pickaxe => assert ToolName(a)[0] != ToolName(b)[0];
      case Scythe => assert ToolName(a)[0] != ToolName(b)[0];
    }
  }

  /** The decimal digit character of `d`. */
  function DigitChar(d: nat): char
    requires d < 10
  {
    "0123456789"[d]
  }

  /** The decimal representation of `n`, as `{}` formats an integer. */
  function Decimal(n: nat): (s: string)
    decreases n
  {
    if n < 10 then [DigitChar(n)] else Decimal(n / 10) + [DigitChar(n % 10)]
  }

  lemma {:induction false} DecimalLength(n: nat)
    ensures n < 10 ==> |Decimal(n)| == 1
    ensures n >= 10 ==> |Decimal(n)| >= 2
  {
    if n >= 10 {
      DecimalLength(n / 10);
    }
  }

  /** Distinct numbers are formatted differently. */
  lemma {:induction false} DecimalInjective(a: nat, b: nat)
    ensures Decimal(a) == Decimal(b) ==> a == b
    decreases a + b
  {
    if Decimal(a) == Decimal(b) {
      DecimalLength(a);
      DecimalLength(b);
      if a >= 10 && b >= 10 {
        var da, db := Decimal(a), Decimal(b);
        assert da[..|da| - 1] == Decimal(a / 10);
        assert db[..|db| - 1] == Decimal(b / 10);
        assert DigitChar(a % 10) == da[|da| - 1];
        assert DigitChar(b % 10) == db[|db| - 1];
        DecimalInjective(a / 10, b / 10);
      } else if a < 10 && b < 10 {
        assert DigitChar(a) == Decimal(a)[0];
        assert DigitChar(b) == Decimal(b)[0];
      }
    }
  }

  /**
   * `Display for ItemId`. The source has no arm for `Prop`, so the model
   * only formats the three variants it shows.
   */
  function ItemLabel(item: ItemId): string
    requires !item.Prop?
  {
    match item
    case Crop(id) => "Crop (ID " + Decimal(id.value) + ")"
    case Seed(id) => "Seed (ID " + Decimal(id.value) + ")"
    case Tool(t) => ToolName(t)
  }

  /** Display labels identify the item: different items never share a label. */
  lemma ItemLabelInjective(a: ItemId, b: ItemId)
    requires !a.Prop? && !b.Prop?
    ensures ItemLabel(a) == ItemLabel(b) <==> a == b
  {
    LabelHead(a);
    LabelHead(b);
    if ItemLabel(a) == ItemLabel(b) {
      match a
      case Crop(x) =>
        match b {
          case Crop(y) => LabelNumber("Crop (ID ", x.value, y.value);
          case Seed(_) =>
          case Tool(_) =>
        }
      case Seed(x) =>
        match b {
          case Crop(_) =>
          case Seed(y) => LabelNumber("Seed (ID ", x.value, y.value);
          case Tool(_) =>
        }
      case Tool(t) =>
        match b {
          case Crop(_) =>
          case Seed(_) =>
          case Tool(u) => ToolNamesDistinct(t, u);
        }
    }
  }

  /** The first character of a label tells the kind of item apart. */
  lemma LabelHead(item: ItemId)
    requires !item.Prop?
    ensures |ItemLabel(item)| > 0
    ensures item.Crop? ==> ItemLabel(item)[0] == 'C'
    ensures item.Seed? ==> ItemLabel(item)[0] == 'S' && ItemLabel(item)[1] == 'e'
    ensures item.Tool? ==> ItemLabel(item)[0] in "HPS" && ItemLabel(item)[1] != 'e'
  {
  }

  lemma LabelNumber(prefix: string, x: nat, y: nat)
    requires prefix + Decimal(x) + ")" == prefix + Decimal(y) + ")"
    ensures x == y
  {
    var l := prefix + Decimal(x) + ")";
    assert Decimal(x) == l[|prefix|..|l| - 1];
    assert Decimal(y) == l[|prefix|..|l| - 1];
    DecimalInjective(x, y);
  }

  /**
   * `ItemId::item_name`. Crop and seed names index the registry, which panics
   * for an unknown id; the source has no arm for `Prop`.
   */
  function ItemName(item: ItemId, reg: Registry): string
    requires !item.Prop?
    requires (item.Crop? || item.Seed?) ==> item.cropId in reg
  {
    match item
    case Crop(id) => reg[id].name
    case Seed(id) => reg[id].name + " Seed"
    case Tool(t) => ToolName(t)
  }

  /** A crop's seed is named after the crop, followed by " Seed". */
  lemma SeedNameExtendsCropName(id: CropId, reg: Registry)
    requires id in reg
    ensures ItemName(Crop(id), reg) == reg[id].name
    ensures ItemName(Seed(id), reg) == ItemName(Crop(id), reg) + " Seed"
    ensures forall t: ToolId :: ItemName(Tool(t), reg) == ToolName(t)
  {
  }

  /** With the hard-coded crops, every nameable item has its own name. */
  lemma DebugItemNamesDistinct(a: ItemId, b: ItemId)
    requires !a.Prop? && !b.Prop?
    requires (a.Crop? || a.Seed?) ==> a.cropId in DebugRegistry()
    requires (b.Crop? || b.Seed?) ==> b.cropId in DebugRegistry()
    ensures ItemName(a, DebugRegistry()) == ItemName(b, DebugRegistry()) <==> a == b
  {
    var reg := DebugRegistry();
    var na, nb := ItemName(a, reg), ItemName(b, reg);
    if na == nb && a != b {
      assert |na| == |nb|;
      if a.Tool? && b.Tool? {
        ToolNamesDistinct(a.toolId, b.toolId);
      }
    }
  }
}
