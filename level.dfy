/** The typed projection of a chunk's `Level` tag map (`Level::from_hashmap`,
    `Level::from_value`, `Level::default` in src/world/mod.rs). Each
    recognised key name sets one field through a foreign conversion; the
    conversions are parameters, and what they accept is not modelled. */
module WorldLevel {
  import opened Outcomes
  import opened Nbt

  /** One 16-block-high slice of a chunk (legacy byte-array format). */
  datatype Section = Section(
    y: u8,
    blockLight: seq<i8>,
    blocks: seq<i8>,
    data: seq<i8>,
    skyLight: seq<i8>)

  /** The modern height map shape; the legacy `Level` does not use it. */
  datatype HeightMap = HeightMap(motionBlocking: seq<i64>)

  datatype Level = Level(
    sections: seq<Section>,
    blockEntities: seq<TagMap>,
    inhabitedTime: i64,
    lastUpdate: i64,
    lightPopulated: bool,
    terrainPopulated: bool,
    x: i32,
    z: i32,
    biomes: seq<i8>,
    heightMap: seq<i32>)

  /** `Level::default()`: empty lists and arrays, zero counters, false flags. */
  function DefaultLevel(): Level
  {
    Level([], [], 0, 0, false, false, 0, 0, [], [])
  }

  /** The fields `from_hashmap` can set. */
  datatype Field =
    | SectionsField | BlockEntitiesField | InhabitedTimeField | LastUpdateField
    | LightPopulatedField | TerrainPopulatedField | XPosField | ZPosField
    | BiomesField | HeightMapField

  /** The key names of the `match` in `from_hashmap`; `None` is its `_` arm. */
  function FieldOf(key: string): Option<Field>
  {
    if key == "Sections" then Some(SectionsField)
    else if key == "TileEntities" || key == "BlockEntities" then Some(BlockEntitiesField)
    else if key == "InhabitedTime" then Some(InhabitedTimeField)
    else if key == "LastUpdate" then Some(LastUpdateField)
    else if key == "LightPopulated" then Some(LightPopulatedField)
    else if key == "TerrainPopulated" then Some(TerrainPopulatedField)
    else if key == "xPos" then Some(XPosField)
    else if key == "zPos" then Some(ZPosField)
    else if key == "Biomes" then Some(BiomesField)
    else if key == "HeightMap" then Some(HeightMapField)
    else None
  }

  /** `fastnbt::value::from_value` at each field type the match uses. */
  datatype Conversions = Conversions(
    toSections: Value -> Foreign<seq<Section>>,
    toTagMaps: Value -> Foreign<seq<TagMap>>,
    toI64: Value -> Foreign<i64>,
    toBool: Value -> Foreign<bool>,
    toI32: Value -> Foreign<i32>,
    toByteArray: Value -> Foreign<seq<i8>>,
    toIntArray: Value -> Foreign<seq<i32>>)

  /** One arm of the match: `level.<field> = from_value(v)?`. */
  function Assign(level: Level, f: Field, v: Value, c: Conversions): Result<Level>
  {
    match f
    case SectionsField => var s :- Lift(c.toSections(v)); Ok(level.(sections := s))
    case BlockEntitiesField => var e :- Lift(c.toTagMaps(v)); Ok(level.(blockEntities := e))
    case InhabitedTimeField => var t :- Lift(c.toI64(v)); Ok(level.(inhabitedTime := t))
    case LastUpdateField => var t :- Lift(c.toI64(v)); Ok(level.(lastUpdate := t))
    case LightPopulatedField => var b :- Lift(c.toBool(v)); Ok(level.(lightPopulated := b))
    case TerrainPopulatedField => var b :- Lift(c.toBool(v)); Ok(level.(terrainPopulated := b))
    case XPosField => var p :- Lift(c.toI32(v)); Ok(level.(x := p))
    case ZPosField => var p :- Lift(c.toI32(v)); Ok(level.(z := p))
    case BiomesField => var a :- Lift(c.toByteArray(v)); Ok(level.(biomes := a))
    case HeightMapField => var a :- Lift(c.toIntArray(v)); Ok(level.(heightMap := a))
  }

  /** One iteration of the loop in `from_hashmap`; unknown keys leave `level` as it is. */
  function Apply(level: Level, key: string, v: Value, c: Conversions): Result<Level>
  {
    match FieldOf(key)
    case None => Ok(level)
    case Some(f) => Assign(level, f, v, c)
  }

  /** The loop of `from_hashmap` over `entries` in iteration order, stopping at
      the first conversion that fails. */
  function FoldEntries(level: Level, entries: TagMap, c: Conversions): (r: Result<Level>)
    ensures r.Err? ==> r.fault.Failed? && r.fault.error.Collaborator?
    decreases |entries|
  {
    if entries == [] then Ok(level)
    else
      var next :- Apply(level, entries[0].0, entries[0].1, c);
      FoldEntries(next, entries[1..], c)
  }

  /** The entries the `_` arm prints, in order. */
  function Unrecognised(entries: TagMap): seq<(string, Value)>
  {
    if entries == [] then []
    else
      var last := entries[|entries| - 1];
      Unrecognised(entries[..|entries| - 1]) + (if FieldOf(last.0).None? then [last] else [])
  }

  /** `Level::from_hashmap`. The `println!` of the `_` arm is recorded in `printed`. */
  method FromHashmap(entries: TagMap, c: Conversions) returns (r: Result<Level>, ghost printed: seq<(string, Value)>)
    ensures r == FoldEntries(DefaultLevel(), entries, c)
    ensures entries == [] ==> r == Ok(DefaultLevel())
    ensures r.Ok? ==> printed == Unrecognised(entries)
    ensures r.Err? ==> exists i :: 0 <= i <= |entries| && printed == Unrecognised(entries[..i])
  {
    var level := DefaultLevel();
    printed := [];
    var i := 0;
    while i < |entries|
      invariant 0 <= i <= |entries|
      invariant FoldEntries(DefaultLevel(), entries, c) == FoldEntries(level, entries[i..], c)
      invariant printed == Unrecognised(entries[..i])
    {
      var (k, v) := entries[i];
      var step := Apply(level, k, v, c);
      if step.Err? {
        assert entries[i..][1..] == entries[i + 1..];
        assert printed == Unrecognised(entries[..i]);
        return Err(step.fault), printed;
      }
      if FieldOf(k).None? {
        printed := printed + [(k, v)];
      }
      assert entries[..i + 1][..i] == entries[..i];
      assert entries[i..][1..] == entries[i + 1..];
      level := step.value;
      i := i + 1;
    }
    assert entries[..i] == entries;
    r := Ok(level);
  }

  /** `Level::from_value`: only a compound value is projected. */
  function FromValue(value: Value, c: Conversions): (r: Result<Level>)
    ensures r == Err(Failed(NotCompound)) <==> !value.Compound?
    ensures value.Compound? && value.entries == [] ==> r == Ok(DefaultLevel())
  {
    if value.Compound? then FoldEntries(DefaultLevel(), value.entries, c)
    else Err(Failed(NotCompound))
  }

  // ---------------------------------------------------------------------
  // A field-by-field view, to state what the loop leaves in each field.

  datatype FieldValue =
    | SectionsValue(sections: seq<Section>)
    | TagMapsValue(tagMaps: seq<TagMap>)
    | LongValue(long: i64)
    | BoolValue(flag: bool)
    | IntValue(int32: i32)
    | BytesValue(bytes: seq<i8>)
    | IntsValue(ints: seq<i32>)

  function Get(level: Level, f: Field): FieldValue
  {
    match f
    case SectionsField => SectionsValue(level.sections)
    case BlockEntitiesField => TagMapsValue(level.blockEntities)
    case InhabitedTimeField => LongValue(level.inhabitedTime)
    case LastUpdateField => LongValue(level.lastUpdate)
    case LightPopulatedField => BoolValue(level.lightPopulated)
    case TerrainPopulatedField => BoolValue(level.terrainPopulated)
    case XPosField => IntValue(level.x)
    case ZPosField => IntValue(level.z)
    case BiomesField => BytesValue(level.biomes)
    case HeightMapField => IntsValue(level.heightMap)
  }

  /** The conversion the match applies for field `f`, as a field value. */
  function Convert(f: Field, v: Value, c: Conversions): Foreign<FieldValue>
  {
    match f
    case SectionsField => Wrap(c.toSections(v), s => SectionsValue(s))
    case BlockEntitiesField => Wrap(c.toTagMaps(v), e => TagMapsValue(e))
    case InhabitedTimeField => Wrap(c.toI64(v), t => LongValue(t))
    case LastUpdateField => Wrap(c.toI64(v), t => LongValue(t))
    case LightPopulatedField => Wrap(c.toBool(v), b => BoolValue(b))
    case TerrainPopulatedField => Wrap(c.toBool(v), b => BoolValue(b))
    case XPosField => Wrap(c.toI32(v), p => IntValue(p))
    case ZPosField => Wrap(c.toI32(v), p => IntValue(p))
    case BiomesField => Wrap(c.toByteArray(v), a => BytesValue(a))
    case HeightMapField => Wrap(c.toIntArray(v), a => IntsValue(a))
  }

  function Wrap<T>(r: Foreign<T>, k: T -> FieldValue): Foreign<FieldValue>
  {
    match r
    case Produced(t) => Produced(k(t))
    case Rejected(m) => Rejected(m)
  }

  /** Whether the match arm for this entry's key would fail. */
  predicate Rejects(entry: (string, Value), c: Conversions)
  {
    match FieldOf(entry.0)
    case None => false
    case Some(f) => Convert(f, entry.1, c).Rejected?
  }

  /** The value of the last entry whose key names field `f`. */
  function LastValueFor(entries: TagMap, f: Field): Option<Value>
  {
    if entries == [] then None
    else match LastValueFor(entries[1..], f)
      case Some(v) => Some(v)
      case None => if FieldOf(entries[0].0) == Some(f) then Some(entries[0].1) else None
  }

  /** The entries whose key the match recognises. */
  function Recognised(entries: TagMap): TagMap
  {
    if entries == [] then []
    else (if FieldOf(entries[0].0).Some? then [entries[0]] else []) + Recognised(entries[1..])
  }

  /** An arm fails exactly when its conversion fails, and otherwise changes
      its own field to the converted value and no other field. */
  lemma AssignChangesOneField(level: Level, f: Field, v: Value, c: Conversions)
    ensures Assign(level, f, v, c).Err? <==> Convert(f, v, c).Rejected?
    ensures Assign(level, f, v, c).Ok? ==>
      forall g :: Get(Assign(level, f, v, c).value, g) ==
        (if g == f then Convert(f, v, c).value else Get(level, g))
  {
  }

  /** Both alias spellings reach the same arm. */
  lemma AliasesAgree(level: Level, v: Value, c: Conversions)
    ensures Apply(level, "TileEntities", v, c) == Apply(level, "BlockEntities", v, c)
    ensures FieldOf("TileEntities") == FieldOf("BlockEntities") == Some(BlockEntitiesField)
  {
  }

  /** The projection fails exactly when some recognised entry's conversion
      fails; whatever the fields already hold does not matter. */
  lemma {:induction false} FailsIffSomeConversionFails(level: Level, entries: TagMap, c: Conversions)
    ensures FoldEntries(level, entries, c).Err? <==>
      exists i :: 0 <= i < |entries| && Rejects(entries[i], c)
    decreases |entries|
  {
    if entries != [] {
      var (k, v) := entries[0];
      if FieldOf(k).Some? {
        AssignChangesOneField(level, FieldOf(k).value, v, c);
      }
      var step := Apply(level, k, v, c);
      if step.Ok? {
        FailsIffSomeConversionFails(step.value, entries[1..], c);
        if exists i :: 0 <= i < |entries| && Rejects(entries[i], c) {
          var i :| 0 <= i < |entries| && Rejects(entries[i], c);
          assert i > 0;
          assert Rejects(entries[1..][i - 1], c);
        }
        if exists j :: 0 <= j < |entries[1..]| && Rejects(entries[1..][j], c) {
          var j :| 0 <= j < |entries[1..]| && Rejects(entries[1..][j], c);
          assert Rejects(entries[j + 1], c);
        }
      } else {
        assert Rejects(entries[0], c);
      }
    }
  }

  /** Each field ends holding the conversion of the last entry that names it
      (for `block_entities`, under either spelling), or what it held before
      when no entry names it. */
  lemma {:induction false} LastEntryWins(level: Level, entries: TagMap, c: Conversions, f: Field)
    requires FoldEntries(level, entries, c).Ok?
    ensures match LastValueFor(entries, f)
      case None => Get(FoldEntries(level, entries, c).value, f) == Get(level, f)
      case Some(v) => Convert(f, v, c) == Produced(Get(FoldEntries(level, entries, c).value, f))
    decreases |entries|
  {
    if entries != [] {
      var (k, v) := entries[0];
      var step := Apply(level, k, v, c);
      assert step.Ok?;
      LastEntryWins(step.value, entries[1..], c, f);
      if FieldOf(k).Some? {
        AssignChangesOneField(level, FieldOf(k).value, v, c);
      }
    }
  }

  /** From `Level::default()`, a field no entry names keeps its default. */
  lemma UnnamedFieldKeepsDefault(entries: TagMap, c: Conversions, f: Field)
    requires FoldEntries(DefaultLevel(), entries, c).Ok?
    requires LastValueFor(entries, f).None?
    ensures Get(FoldEntries(DefaultLevel(), entries, c).value, f) == Get(DefaultLevel(), f)
  {
    LastEntryWins(DefaultLevel(), entries, c, f);
  }

  /** Entries with unrecognised keys change no field and cause no error:
      dropping them gives the same outcome. */
  lemma {:induction false} UnrecognisedKeysIgnored(level: Level, entries: TagMap, c: Conversions)
    ensures FoldEntries(level, entries, c) == FoldEntries(level, Recognised(entries), c)
    decreases |entries|
  {
    if entries != [] {
      var (k, v) := entries[0];
      var rest := entries[1..];
      if FieldOf(k).None? {
        assert Recognised(entries) == Recognised(rest);
        UnrecognisedKeysIgnored(level, rest, c);
      } else {
        var step := Apply(level, k, v, c);
        var kept := Recognised(entries);
        assert kept == [entries[0]] + Recognised(rest);
        assert kept[0] == entries[0] && kept[1..] == Recognised(rest);
        if step.Ok? {
          UnrecognisedKeysIgnored(step.value, rest, c);
        }
      }
    }
  }
}
