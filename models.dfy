/** The database records of the game schema that carry a signature: worlds,
    character classes, their features and items, with their `as_new_*`
    conversions and the byte strings (preimages) their `TypeSignature`
    implementations hash. */
module Models {

  import opened Numbers
  import opened Encoding
  import opened Api

  // ---------------------------------------------------------------------------
  // Records
  // ---------------------------------------------------------------------------

  datatype World = World(id: i64, code: string, name: string, description: string,
                         createdAt: Timestamp, updatedAt: Timestamp)

  datatype NewWorld = NewWorld(code: string, name: string, description: string,
                               createdAt: Timestamp, updatedAt: Timestamp)

  datatype CharacterClass = CharacterClass(
    id: i64, worldId: i64, code: string, name: string, description: string, hitPoints: i32,
    staminaExpression: string, skillpointExpression: string, proficiencies: JsonValue,
    createdAt: Timestamp, updatedAt: Timestamp)

  datatype NewCharacterClass = NewCharacterClass(
    worldId: i64, code: string, name: string, description: string, hitPoints: i32,
    staminaExpression: string, skillpointExpression: string, proficiencies: JsonValue)

  datatype CharacterClassFeature = CharacterClassFeature(
    id: i64, classId: i64, level: i32, code: string, name: string, description: string,
    createdAt: Timestamp, updatedAt: Timestamp)

  datatype NewCharacterClassFeature = NewCharacterClassFeature(
    classId: i64, level: i32, code: string, name: string, description: string)

  datatype Item = Item(
    id: i64, worldId: i64, code: string, itemType: string, categoryId: i64, name: string,
    description: string, itemProperties: JsonValue, basePrice: i64,
    createdAt: Timestamp, updatedAt: Timestamp)

  datatype NewItem = NewItem(
    worldId: i64, code: string, itemType: string, categoryId: i64, name: string,
    description: string, itemProperties: JsonValue, basePrice: i64)

  // ---------------------------------------------------------------------------
  // `as_new_*`: the insertable record, without the database id
  // ---------------------------------------------------------------------------

  function AsNewWorld(w: World): NewWorld
  {
    NewWorld(w.code, w.name, w.description, w.createdAt, w.updatedAt)
  }

  function AsNewCharacterClass(c: CharacterClass): NewCharacterClass
  {
    NewCharacterClass(c.worldId, c.code, c.name, c.description, c.hitPoints,
                      c.staminaExpression, c.skillpointExpression, c.proficiencies)
  }

  function AsNewCharacterClassFeature(f: CharacterClassFeature): NewCharacterClassFeature
  {
    NewCharacterClassFeature(f.classId, f.level, f.code, f.name, f.description)
  }

  function AsNewItem(i: Item): NewItem
  {
    NewItem(i.worldId, i.code, i.itemType, i.categoryId, i.name, i.description,
            i.itemProperties, i.basePrice)
  }

  /** `as_new_world` forgets exactly the id: putting the id back gives the
      world, and the insertable record of a world rebuilt from one is that
      record. */
  lemma AsNewWorldLosesOnlyId(w: World, n: NewWorld, id: i64)
    ensures var m := AsNewWorld(w);
      World(w.id, m.code, m.name, m.description, m.createdAt, m.updatedAt) == w
    ensures AsNewWorld(World(id, n.code, n.name, n.description, n.createdAt, n.updatedAt)) == n
  {
  }

  /** `as_new_character_class` forgets exactly the id and the timestamps. */
  lemma AsNewCharacterClassLosesOnlyIdAndTimes(c: CharacterClass, n: NewCharacterClass,
                                                id: i64, createdAt: Timestamp, updatedAt: Timestamp)
    ensures var m := AsNewCharacterClass(c);
      CharacterClass(c.id, m.worldId, m.code, m.name, m.description, m.hitPoints,
                     m.staminaExpression, m.skillpointExpression, m.proficiencies,
                     c.createdAt, c.updatedAt) == c
    ensures AsNewCharacterClass(
              CharacterClass(id, n.worldId, n.code, n.name, n.description, n.hitPoints,
                             n.staminaExpression, n.skillpointExpression, n.proficiencies,
                             createdAt, updatedAt)) == n
  {
  }

  /** `as_new_character_class_feature` forgets exactly the id and the
      timestamps. */
  lemma AsNewFeatureLosesOnlyIdAndTimes(f: CharacterClassFeature, n: NewCharacterClassFeature,
                                        id: i64, createdAt: Timestamp, updatedAt: Timestamp)
    ensures var m := AsNewCharacterClassFeature(f);
      CharacterClassFeature(f.id, m.classId, m.level, m.code, m.name, m.description,
                            f.createdAt, f.updatedAt) == f
    ensures AsNewCharacterClassFeature(
              CharacterClassFeature(id, n.classId, n.level, n.code, n.name, n.description,
                                    createdAt, updatedAt)) == n
  {
  }

  /** `as_new_item` forgets exactly the id and the timestamps, and keeps all
      eight data fields. */
  lemma AsNewItemLosesOnlyIdAndTimes(i: Item, n: NewItem, id: i64,
                                     createdAt: Timestamp, updatedAt: Timestamp)
    ensures var m := AsNewItem(i);
      Item(i.id, m.worldId, m.code, m.itemType, m.categoryId, m.name, m.description,
           m.itemProperties, m.basePrice, i.createdAt, i.updatedAt) == i
    ensures AsNewItem(Item(id, n.worldId, n.code, n.itemType, n.categoryId, n.name,
                           n.description, n.itemProperties, n.basePrice, createdAt, updatedAt)) == n
  {
  }

  // ---------------------------------------------------------------------------
  // Signature preimages
  // ---------------------------------------------------------------------------

  /** The bytes a world's signature hashes: code, name and description. */
  function WorldPreimage(w: World): seq<byte>
  {
    Utf8(w.code) + Utf8(w.name) + Utf8(w.description)
  }

  function NewWorldPreimage(n: NewWorld): seq<byte>
  {
    Utf8(n.code) + Utf8(n.name) + Utf8(n.description)
  }

  /** A character class: world id (8 bytes), code, name, description, hit
      points (4 bytes), both expressions and the JSON text of the
      proficiencies, as `render` writes it. */
  function CharacterClassPreimage(c: CharacterClass, render: JsonValue -> string): seq<byte>
  {
    I64Bytes(c.worldId) + Utf8(c.code) + Utf8(c.name) + Utf8(c.description)
    + I32Bytes(c.hitPoints) + Utf8(c.staminaExpression) + Utf8(c.skillpointExpression)
    + Utf8(render(c.proficiencies))
  }

  function NewCharacterClassPreimage(n: NewCharacterClass, render: JsonValue -> string): seq<byte>
  {
    I64Bytes(n.worldId) + Utf8(n.code) + Utf8(n.name) + Utf8(n.description)
    + I32Bytes(n.hitPoints) + Utf8(n.staminaExpression) + Utf8(n.skillpointExpression)
    + Utf8(render(n.proficiencies))
  }

  /** A feature: class id (8 bytes), level (4 bytes), code, name and
      description. */
  function FeaturePreimage(f: CharacterClassFeature): seq<byte>
  {
    I64Bytes(f.classId) + I32Bytes(f.level) + Utf8(f.code) + Utf8(f.name) + Utf8(f.description)
  }

  function NewFeaturePreimage(n: NewCharacterClassFeature): seq<byte>
  {
    I64Bytes(n.classId) + I32Bytes(n.level) + Utf8(n.code) + Utf8(n.name) + Utf8(n.description)
  }

  /** An item: world id, category id (8 bytes each), code, item type, name,
      description and base price (8 bytes). */
  function ItemPreimage(i: Item): seq<byte>
  {
    I64Bytes(i.worldId) + I64Bytes(i.categoryId) + Utf8(i.code) + Utf8(i.itemType)
    + Utf8(i.name) + Utf8(i.description) + I64Bytes(i.basePrice)
  }

  // ---------------------------------------------------------------------------
  // `signature`: the preimage built field by field, then hashed
  // ---------------------------------------------------------------------------

  method WorldSignature(w: World, hash: seq<byte> -> seq<byte>) returns (sig: seq<byte>)
    ensures sig == hash(WorldPreimage(w))
  {
    var signature: seq<byte> := [];
    signature := signature + Utf8(w.code);
    assert signature == Utf8(w.code);
    signature := signature + Utf8(w.name);
    signature := signature + Utf8(w.description);
    sig := hash(signature);
  }

  method NewWorldSignature(n: NewWorld, hash: seq<byte> -> seq<byte>) returns (sig: seq<byte>)
    ensures sig == hash(NewWorldPreimage(n))
  {
    var signature: seq<byte> := [];
    signature := signature + Utf8(n.code);
    assert signature == Utf8(n.code);
    signature := signature + Utf8(n.name);
    signature := signature + Utf8(n.description);
    sig := hash(signature);
  }

  method CharacterClassSignature(c: CharacterClass, render: JsonValue -> string,
                                 hash: seq<byte> -> seq<byte>) returns (sig: seq<byte>)
    ensures sig == hash(CharacterClassPreimage(c, render))
  {
    var signature: seq<byte> := [];
    signature := signature + I64Bytes(c.worldId);
    assert signature == I64Bytes(c.worldId);
    signature := signature + Utf8(c.code);
    signature := signature + Utf8(c.name);
    signature := signature + Utf8(c.description);
    signature := signature + I32Bytes(c.hitPoints);
    signature := signature + Utf8(c.staminaExpression);
    signature := signature + Utf8(c.skillpointExpression);
    signature := signature + Utf8(render(c.proficiencies));
    sig := hash(signature);
  }

  method NewCharacterClassSignature(n: NewCharacterClass, render: JsonValue -> string,
                                    hash: seq<byte> -> seq<byte>) returns (sig: seq<byte>)
    ensures sig == hash(NewCharacterClassPreimage(n, render))
  {
    var signature: seq<byte> := [];
    signature := signature + I64Bytes(n.worldId);
    assert signature == I64Bytes(n.worldId);
    signature := signature + Utf8(n.code);
    signature := signature + Utf8(n.name);
    signature := signature + Utf8(n.description);
    signature := signature + I32Bytes(n.hitPoints);
    signature := signature + Utf8(n.staminaExpression);
    signature := signature + Utf8(n.skillpointExpression);
    signature := signature + Utf8(render(n.proficiencies));
    sig := hash(signature);
  }

  method FeatureSignature(f: CharacterClassFeature, hash: seq<byte> -> seq<byte>) returns (sig: seq<byte>)
    ensures sig == hash(FeaturePreimage(f))
  {
    var signature: seq<byte> := [];
    signature := signature + I64Bytes(f.classId);
    assert signature == I64Bytes(f.classId);
    signature := signature + I32Bytes(f.level);
    signature := signature + Utf8(f.code);
    signature := signature + Utf8(f.name);
    signature := signature + Utf8(f.description);
    sig := hash(signature);
  }

  method NewFeatureSignature(n: NewCharacterClassFeature, hash: seq<byte> -> seq<byte>)
    returns (sig: seq<byte>)
    ensures sig == hash(NewFeaturePreimage(n))
  {
    var signature: seq<byte> := [];
    signature := signature + I64Bytes(n.classId);
    assert signature == I64Bytes(n.classId);
    signature := signature + I32Bytes(n.level);
    signature := signature + Utf8(n.code);
    signature := signature + Utf8(n.name);
    signature := signature + Utf8(n.description);
    sig := hash(signature);
  }

  method ItemSignature(i: Item, hash: seq<byte> -> seq<byte>) returns (sig: seq<byte>)
    ensures sig == hash(ItemPreimage(i))
  {
    var signature: seq<byte> := [];
    signature := signature + I64Bytes(i.worldId);
    assert signature == I64Bytes(i.worldId);
    signature := signature + I64Bytes(i.categoryId);
    signature := signature + Utf8(i.code);
    signature := signature + Utf8(i.itemType);
    signature := signature + Utf8(i.name);
    signature := signature + Utf8(i.description);
    signature := signature + I64Bytes(i.basePrice);
    sig := hash(signature);
  }

  // ---------------------------------------------------------------------------
  // Properties of the preimages
  // ---------------------------------------------------------------------------

  /** The insertable records sign like the records they come from, so
      signatures compare across `as_new_*`. */
  lemma AsNewKeepsSignatures(w: World, c: CharacterClass, f: CharacterClassFeature,
                             render: JsonValue -> string)
    ensures NewWorldPreimage(AsNewWorld(w)) == WorldPreimage(w)
    ensures NewCharacterClassPreimage(AsNewCharacterClass(c), render) == CharacterClassPreimage(c, render)
    ensures NewFeaturePreimage(AsNewCharacterClassFeature(f)) == FeaturePreimage(f)
  {
  }

  /** Ids and timestamps do not take part in any signature: records that
      differ only there sign alike. */
  lemma SignaturesIgnoreIdsAndTimes(w: World, c: CharacterClass, f: CharacterClassFeature, i: Item,
                                    id: i64, t1: Timestamp, t2: Timestamp, render: JsonValue -> string)
    ensures WorldPreimage(w.(id := id, createdAt := t1, updatedAt := t2)) == WorldPreimage(w)
    ensures CharacterClassPreimage(c.(id := id, createdAt := t1, updatedAt := t2), render)
            == CharacterClassPreimage(c, render)
    ensures FeaturePreimage(f.(id := id, createdAt := t1, updatedAt := t2)) == FeaturePreimage(f)
    ensures ItemPreimage(i.(id := id, createdAt := t1, updatedAt := t2, itemProperties := JNull))
            == ItemPreimage(i)
  {
  }

  /** The character class layout: the first 8 bytes read back as the world
      id, and the 4 bytes after the three texts read back as the hit points. */
  lemma CharacterClassPreimageLayout(c: CharacterClass, render: JsonValue -> string)
    ensures var p := CharacterClassPreimage(c, render);
      var k := |I64Bytes(c.worldId) + Utf8(c.code) + Utf8(c.name) + Utf8(c.description)|;
      && k + 4 <= |p|
      && ToSigned(FromBeBytes(p[..8]), 8) == c.worldId
      && ToSigned(FromBeBytes(p[k..k + 4]), 4) == c.hitPoints
  {
    ClassWorldIdAt(c, render);
    ClassHitPointsAt(c, render);
  }

  lemma ClassWorldIdAt(c: CharacterClass, render: JsonValue -> string)
    ensures var p := CharacterClassPreimage(c, render);
      8 <= |p| && ToSigned(FromBeBytes(p[..8]), 8) == c.worldId
  {
    var p, w := CharacterClassPreimage(c, render), I64Bytes(c.worldId);
    forall j | 0 <= j < 8
      ensures p[j] == w[j]
    {
    }
    assert p[..8] == w;
    I64InRange(c.worldId);
    SignedRoundTrip(c.worldId, 8);
  }

  lemma ClassHitPointsAt(c: CharacterClass, render: JsonValue -> string)
    ensures var p := CharacterClassPreimage(c, render);
      var k := |I64Bytes(c.worldId) + Utf8(c.code) + Utf8(c.name) + Utf8(c.description)|;
      k + 4 <= |p| && ToSigned(FromBeBytes(p[k..k + 4]), 4) == c.hitPoints
  {
    ClassHitPointsSlice(c, render);
    I32InRange(c.hitPoints);
    DecodesAt(CharacterClassPreimage(c, render), |I64Bytes(c.worldId) + Utf8(c.code) + Utf8(c.name) + Utf8(c.description)|,
              c.hitPoints, 4);
  }

  lemma ClassHitPointsSlice(c: CharacterClass, render: JsonValue -> string)
    ensures var p := CharacterClassPreimage(c, render);
      var k := |I64Bytes(c.worldId) + Utf8(c.code) + Utf8(c.name) + Utf8(c.description)|;
      k + 4 <= |p| && p[k..k + 4] == I32Bytes(c.hitPoints)
  {
    FifthOfEight(I64Bytes(c.worldId), Utf8(c.code), Utf8(c.name), Utf8(c.description),
                 I32Bytes(c.hitPoints), Utf8(c.staminaExpression), Utf8(c.skillpointExpression),
                 Utf8(render(c.proficiencies)));
  }

  /** The feature layout: class id in the first 8 bytes, level in the next 4. */
  lemma FeaturePreimageLayout(f: CharacterClassFeature)
    ensures var p := FeaturePreimage(f);
      && 12 <= |p|
      && ToSigned(FromBeBytes(p[..8]), 8) == f.classId
      && ToSigned(FromBeBytes(p[8..12]), 4) == f.level
  {
    FeatureClassIdAt(f);
    FeatureLevelAt(f);
  }

  lemma FeatureClassIdAt(f: CharacterClassFeature)
    ensures var p := FeaturePreimage(f);
      8 <= |p| && ToSigned(FromBeBytes(p[..8]), 8) == f.classId
  {
    var p, w := FeaturePreimage(f), I64Bytes(f.classId);
    forall j | 0 <= j < 8
      ensures p[j] == w[j]
    {
    }
    assert p[..8] == w;
    I64InRange(f.classId);
    SignedRoundTrip(f.classId, 8);
  }

  lemma FeatureLevelAt(f: CharacterClassFeature)
    ensures var p := FeaturePreimage(f);
      12 <= |p| && ToSigned(FromBeBytes(p[8..12]), 4) == f.level
  {
    var p, w := FeaturePreimage(f), I32Bytes(f.level);
    forall j | 0 <= j < 4
      ensures p[8 + j] == w[j]
    {
    }
    assert p[8..12] == w;
    I32InRange(f.level);
    SignedRoundTrip(f.level, 4);
  }

  /** The item layout: world id, then category id, 8 bytes each, and the
      base price in the last 8 bytes. */
  lemma ItemPreimageLayout(i: Item)
    ensures var p := ItemPreimage(i);
      && 24 <= |p|
      && ToSigned(FromBeBytes(p[..8]), 8) == i.worldId
      && ToSigned(FromBeBytes(p[8..16]), 8) == i.categoryId
      && ToSigned(FromBeBytes(p[|p| - 8..]), 8) == i.basePrice
  {
    ItemWorldIdAt(i);
    ItemCategoryIdAt(i);
    ItemBasePriceAt(i);
  }

  lemma ItemWorldIdAt(i: Item)
    ensures var p := ItemPreimage(i);
      8 <= |p| && ToSigned(FromBeBytes(p[..8]), 8) == i.worldId
  {
    var p, w := ItemPreimage(i), I64Bytes(i.worldId);
    forall j | 0 <= j < 8
      ensures p[j] == w[j]
    {
    }
    assert p[..8] == w;
    I64InRange(i.worldId);
    SignedRoundTrip(i.worldId, 8);
  }

  lemma ItemCategoryIdAt(i: Item)
    ensures var p := ItemPreimage(i);
      16 <= |p| && ToSigned(FromBeBytes(p[8..16]), 8) == i.categoryId
  {
    ItemCategoryIdSlice(i);
    I64InRange(i.categoryId);
    DecodesAt(ItemPreimage(i), 8, i.categoryId, 8);
  }

  lemma ItemCategoryIdSlice(i: Item)
    ensures var p := ItemPreimage(i); 16 <= |p| && p[8..16] == I64Bytes(i.categoryId)
  {
    SecondOfSeven(I64Bytes(i.worldId), I64Bytes(i.categoryId), Utf8(i.code), Utf8(i.itemType),
                  Utf8(i.name), Utf8(i.description), I64Bytes(i.basePrice));
  }

  lemma ItemBasePriceAt(i: Item)
    ensures var p := ItemPreimage(i);
      24 <= |p| && ToSigned(FromBeBytes(p[|p| - 8..]), 8) == i.basePrice
  {
    var p, w := ItemPreimage(i), I64Bytes(i.basePrice);
    assert p[|p| - 8..] == w;
    I64InRange(i.basePrice);
    SignedRoundTrip(i.basePrice, 8);
  }

  /** The world preimage does not separate its fields, so different worlds
      can sign alike: moving a character from the name to the code keeps the
      preimage. */
  lemma WorldPreimageIsAmbiguous(t: Timestamp)
    ensures var w1 := World(1, "ab", "c", "d", t, t);
      var w2 := World(1, "a", "bc", "d", t, t);
      w1 != w2 && WorldPreimage(w1) == WorldPreimage(w2)
  {
    Utf8Concat("a", "b");
    Utf8Concat("b", "c");
    assert "ab" == "a" + "b" && "bc" == "b" + "c";
    assert "ab" != "a";
  }
}
