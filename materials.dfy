/** The material table of the falling-sand engine: pixel flags, phases, pixel
    types, the property record every type maps to, and the pixel factories. */
module Materials {

  /** The bits of a pixel's flag set; `Bit` gives the position each occupies. */
  datatype PixelFlag = IsUpdated | IsFalling | IsBurning

  function Bit(f: PixelFlag): (b: nat)
    ensures b < 64
  {
    match f
    case IsUpdated => 0
    case IsFalling => 1
    case IsBurning => 2
  }

  /** Coarse material state; it decides who may displace whom. */
  datatype Phase = Solid | Liquid | Gas

  datatype PixelType =
    | None | Sand | Dirt | Coal | Water | Lava | Acid | Rock
    | Titanium | Steam | Fuse | Ember | Oil | Gunpowder | Methane

  /** Position of a type in the declaration order (the enum's underlying value). */
  function Ordinal(t: PixelType): (n: nat)
    ensures n < 15
    ensures n == 0 <==> t == None
  {
    match t
    case None => 0      case Sand => 1      case Dirt => 2
    case Coal => 3      case Water => 4     case Lava => 5
    case Acid => 6      case Rock => 7      case Titanium => 8
    case Steam => 9     case Fuse => 10     case Ember => 11
    case Oil => 12      case Gunpowder => 13 case Methane => 14
  }

  /** The physical and chemical constants of one material.
      Draw-compared fields (resistances, chances) are probabilities in [0, 1]. */
  datatype Properties = Properties(
    phase: Phase,
    isMovable: bool,
    canMoveDiagonally: bool,
    gravityFactor: real,
    inertialResistance: real,
    horizontalTransfer: real,
    dispersionRate: int,
    canBoilWater: bool,
    corrosionResist: real,
    isCorrosionSource: bool,
    flammability: real,
    putOutSurrounded: real,
    putOut: real,
    burnOutChance: real,
    isBurnSource: bool,
    isEmberSource: bool)

  /** The record built from the default member initialisers. */
  const Default := Properties(
    phase := Solid, isMovable := false, canMoveDiagonally := false,
    gravityFactor := 0.0, inertialResistance := 0.0, horizontalTransfer := 0.0,
    dispersionRate := 0, canBoilWater := false,
    corrosionResist := 0.8, isCorrosionSource := false,
    flammability := 0.0, putOutSurrounded := 0.0, putOut := 0.0,
    burnOutChance := 0.0, isBurnSource := false, isEmberSource := false)

  /** A record that takes part in no reaction and never moves by itself. */
  predicate Inert(p: Properties)
  {
    !p.canBoilWater && !p.isCorrosionSource && !p.isBurnSource && !p.isEmberSource
    && p.flammability == 0.0 && p.putOut == 0.0 && p.putOutSurrounded == 0.0
    && p.burnOutChance == 0.0 && p.gravityFactor == 0.0 && p.dispersionRate == 0
    && !p.canMoveDiagonally
  }

  /** The pixel.cpp movement classes, mapped onto phase and the movable flag. */
  function AsMovableSolid(p: Properties): Properties { p.(phase := Solid, isMovable := true) }
  function AsLiquid(p: Properties): Properties { p.(phase := Liquid, isMovable := true) }
  function AsGas(p: Properties): Properties { p.(phase := Gas, isMovable := true) }

  /** The lookup table; types without an entry fall back to `Default`. */
  function PropertiesOf(t: PixelType): (r: Properties)
    ensures t in {Fuse, Ember, Oil, Gunpowder, Methane} ==> r == Default
    ensures r.dispersionRate >= 0
    ensures 0.0 <= r.corrosionResist <= 1.0 && 0.0 <= r.flammability <= 1.0
  {
    match t
    case None => Default.(corrosionResist := 1.0)
    case Sand => AsMovableSolid(Default).(inertialResistance := 0.1, horizontalTransfer := 0.3, corrosionResist := 0.3)
    case Dirt => AsMovableSolid(Default).(inertialResistance := 0.4, horizontalTransfer := 0.2, corrosionResist := 0.5)
    case Coal => AsMovableSolid(Default).(inertialResistance := 0.95, horizontalTransfer := 0.1, corrosionResist := 0.8, flammability := 0.02)
    case Water => AsLiquid(Default).(dispersionRate := 5, corrosionResist := 1.0)
    case Lava => AsLiquid(Default).(dispersionRate := 1, corrosionResist := 1.0, canBoilWater := true, isBurnSource := true)
    case Acid => AsLiquid(Default).(dispersionRate := 1, corrosionResist := 1.0, isCorrosionSource := true)
    case Rock => Default.(corrosionResist := 0.95)
    case Titanium => Default.(corrosionResist := 1.0)
    case Steam => AsGas(Default).(dispersionRate := 9, corrosionResist := 0.0)
    case _ => Default
  }

  function PhaseOf(t: PixelType): Phase { PropertiesOf(t).phase }

  /** A material table. The update rules are stated for any table; the engine
      uses PropertiesOf. */
  type Table = PixelType -> Properties

  /** Titanium in a table: an immobile solid that no reaction can affect. */
  predicate TitaniumInert(mat: Table)
  {
    var t := mat(Titanium);
    t.phase == Solid && t.gravityFactor == 0.0 && !t.canMoveDiagonally && t.dispersionRate == 0
    && t.corrosionResist == 1.0 && t.flammability == 0.0 && t.burnOutChance == 0.0
    && !t.isCorrosionSource
  }

  /** The engine's titanium is inert. */
  lemma EngineTitaniumInert()
    ensures TitaniumInert(PropertiesOf)
  {
  }

  /** No entry of the engine's table has a gravity factor, a diagonal slide or a
      non-zero put-out or burn-out chance. */
  lemma EngineTableDormantFields(t: PixelType)
    ensures PropertiesOf(t).gravityFactor == 0.0 && !PropertiesOf(t).canMoveDiagonally
    ensures PropertiesOf(t).putOut == 0.0 && PropertiesOf(t).putOutSurrounded == 0.0
    ensures PropertiesOf(t).burnOutChance == 0.0 && !PropertiesOf(t).isEmberSource
  {
  }

  /** A 2-D float vector (velocity). */
  datatype Vec = Vec(x: real, y: real)

  /** One cell. `colour` abstracts the RGBA colour to one brightness value:
      1.0 is the factory colour, scorching multiplies it by 0.8. */
  datatype Pixel = Pixel(kind: PixelType, colour: real, velocity: Vec, flags: set<PixelFlag>)
  {
    static function Fresh(t: PixelType, flags: set<PixelFlag>): Pixel
    {
      Pixel(t, 1.0, Vec(0.0, 0.0), flags)
    }

    static function Air(): Pixel { Fresh(None, {}) }
    static function Sand(): Pixel { Fresh(PixelType.Sand, {IsFalling}) }
    static function Coal(): Pixel { Fresh(PixelType.Coal, {IsFalling}) }
    static function Dirt(): Pixel { Fresh(PixelType.Dirt, {IsFalling}) }
    static function Rock(): Pixel { Fresh(PixelType.Rock, {}) }
    static function Water(): Pixel { Fresh(PixelType.Water, {}) }
    static function Lava(): Pixel { Fresh(PixelType.Lava, {}) }
    static function Acid(): Pixel { Fresh(PixelType.Acid, {}) }
    static function Steam(): Pixel { Fresh(PixelType.Steam, {}) }
    static function Titanium(): Pixel { Fresh(PixelType.Titanium, {}) }
    /** Only declared in the source; modelled as a fresh ember with no flags. */
    static function Ember(): Pixel { Fresh(PixelType.Ember, {}) }
  }

  /** The factory for each type that has one. */
  function Factory(t: PixelType): (r: Pixel)
    requires t in {None, PixelType.Sand, PixelType.Coal, PixelType.Dirt, PixelType.Rock,
                   PixelType.Water, PixelType.Lava, PixelType.Acid, PixelType.Steam,
                   PixelType.Titanium, PixelType.Ember}
    ensures r.kind == t
    ensures r.flags <= {IsFalling}
    ensures r.velocity == Vec(0.0, 0.0)
  {
    match t
    case None => Pixel.Air()
    case Sand => Pixel.Sand()
    case Coal => Pixel.Coal()
    case Dirt => Pixel.Dirt()
    case Rock => Pixel.Rock()
    case Water => Pixel.Water()
    case Lava => Pixel.Lava()
    case Acid => Pixel.Acid()
    case Steam => Pixel.Steam()
    case Titanium => Pixel.Titanium()
    case Ember => Pixel.Ember()
  }

  // ---------------------------------------------------------------------------
  // Properties of the table

  lemma FlagBitsDistinct(f: PixelFlag, g: PixelFlag)
    ensures Bit(f) == Bit(g) <==> f == g
  {
  }

  lemma OrdinalInjective(s: PixelType, t: PixelType)
    ensures Ordinal(s) == Ordinal(t) <==> s == t
  {
  }

  lemma DefaultIsInertSolid()
    ensures Default.phase == Solid && !Default.isMovable && Inert(Default)
    ensures Default.inertialResistance == 0.0 && Default.horizontalTransfer == 0.0
    ensures Default.corrosionResist == 0.8
  {
  }

  /** Air resists corrosion completely and otherwise has the default record. */
  lemma AirProperties()
    ensures PropertiesOf(None) == Default.(corrosionResist := 1.0)
    ensures Inert(PropertiesOf(None)) && PhaseOf(None) == Solid
  {
  }

  lemma MovableSolids()
    ensures forall t :: t in {PixelType.Sand, PixelType.Dirt, PixelType.Coal} ==>
      PhaseOf(t) == Solid && PropertiesOf(t).isMovable
    ensures PropertiesOf(PixelType.Sand).inertialResistance == 0.1
    ensures PropertiesOf(PixelType.Dirt).inertialResistance == 0.4
    ensures PropertiesOf(PixelType.Coal).inertialResistance == 0.95
    ensures forall t :: PropertiesOf(t).flammability != 0.0 <==> t == PixelType.Coal
  {
  }

  lemma FluidsAndImmovables()
    ensures PhaseOf(PixelType.Water) == Phase.Liquid && PropertiesOf(PixelType.Water).dispersionRate == 5
    ensures PhaseOf(PixelType.Steam) == Phase.Gas && PropertiesOf(PixelType.Steam).dispersionRate == 9
    ensures PropertiesOf(PixelType.Steam).corrosionResist == 0.0
    ensures forall t :: t in {PixelType.Rock, PixelType.Titanium} ==>
      PhaseOf(t) == Solid && !PropertiesOf(t).isMovable && Inert(PropertiesOf(t))
    ensures PropertiesOf(PixelType.Titanium).corrosionResist == 1.0
  {
  }

  /** Exactly sand, dirt and coal start out falling. */
  lemma FallingFactories(t: PixelType)
    requires t in {None, PixelType.Sand, PixelType.Coal, PixelType.Dirt, PixelType.Rock,
                   PixelType.Water, PixelType.Lava, PixelType.Acid, PixelType.Steam,
                   PixelType.Titanium, PixelType.Ember}
    ensures IsFalling in Factory(t).flags <==> t in {PixelType.Sand, PixelType.Coal, PixelType.Dirt}
  {
  }
}
