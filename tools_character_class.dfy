/** The tools crate's `CharacterClassSpec`, the character class as written in
    a world's spec files: its validator and the signature preimage built
    field by field, with loops over proficiencies and features. */
module ClassSpecs {

  import opened Wrappers
  import opened Numbers
  import opened Encoding

  /** `CharacterClassFeature` of a spec. */
  datatype Feature = Feature(level: i32, name: string, description: string)

  /** `CharacterClassSpec`: id, world id, code, proficiencies and features
      may be missing. */
  datatype ClassSpec = ClassSpec(
    id: Option<i64>, worldId: Option<i64>, code: Option<string>, name: string, description: string,
    hitPoints: i64, staminaExpression: string, skillpointExpression: string,
    proficiencies: Option<seq<string>>, features: Option<seq<Feature>>)

  // ---------------------------------------------------------------------------
  // `is_valid`
  // ---------------------------------------------------------------------------

  /** `CharacterClassFeature::is_valid`. */
  predicate FeatureIsValid(f: Feature)
  {
    f.level > 0 && f.name != [] && f.description != []
  }

  /** `iter().all(|p| !p.is_empty())`: every proficiency is non-empty. */
  function AllNonEmpty(ps: seq<string>): (b: bool)
    ensures b <==> forall i | 0 <= i < |ps| :: ps[i] != []
  {
    if ps == [] then true else ps[0] != [] && AllNonEmpty(ps[1..])
  }

  /** `iter().all(|f| f.is_valid())`: every feature is valid. */
  function AllFeaturesValid(fs: seq<Feature>): (b: bool)
    ensures b <==> forall i | 0 <= i < |fs| :: FeatureIsValid(fs[i])
  {
    if fs == [] then true else FeatureIsValid(fs[0]) && AllFeaturesValid(fs[1..])
  }

  /** `CharacterClassSpec::is_valid`. */
  predicate IsValid(s: ClassSpec)
  {
    && s.worldId.GetOr(0) > 0
    && s.code.GetOr("") != []
    && s.name != [] && s.description != []
    && s.hitPoints > 0
    && s.staminaExpression != [] && s.skillpointExpression != []
    && (s.proficiencies.Some? ==> AllNonEmpty(s.proficiencies.value))
    && (s.features.Some? ==> AllFeaturesValid(s.features.value))
  }

  /** What validity demands, field by field: a positive world id and a
      non-empty code, both present; the four texts non-empty; positive hit
      points; no empty proficiency and no invalid feature, missing lists
      being accepted. */
  lemma ValidMeans(s: ClassSpec)
    ensures IsValid(s) <==>
      && s.worldId.Some? && s.worldId.value > 0
      && s.code.Some? && s.code.value != []
      && s.name != [] && s.description != [] && s.staminaExpression != [] && s.skillpointExpression != []
      && s.hitPoints > 0
      && (s.proficiencies.Some? ==> forall p | p in s.proficiencies.value :: p != [])
      && (s.features.Some? ==> forall f | f in s.features.value :: FeatureIsValid(f))
  {
    if s.proficiencies.Some? {
      var ps := s.proficiencies.value;
      if AllNonEmpty(ps) {
        forall p | p in ps
          ensures p != []
        {
          var i :| 0 <= i < |ps| && ps[i] == p;
        }
      }
      if forall p | p in ps :: p != [] {
        forall i | 0 <= i < |ps|
          ensures ps[i] != []
        {
          assert ps[i] in ps;
        }
      }
    }
    if s.features.Some? {
      var fs := s.features.value;
      if AllFeaturesValid(fs) {
        forall f | f in fs
          ensures FeatureIsValid(f)
        {
          var i :| 0 <= i < |fs| && fs[i] == f;
        }
      }
      if forall f | f in fs :: FeatureIsValid(f) {
        forall i | 0 <= i < |fs|
          ensures FeatureIsValid(fs[i])
        {
          assert fs[i] in fs;
        }
      }
    }
  }

  /** A missing list and an empty one are alike to the validator. */
  lemma MissingListsAccepted(s: ClassSpec)
    ensures IsValid(s.(proficiencies := None)) <==> IsValid(s.(proficiencies := Some([])))
    ensures IsValid(s.(features := None)) <==> IsValid(s.(features := Some([])))
  {
  }

  /** The `mechanic` class of the crate's test. */
  function Mechanic(): ClassSpec
  {
    ClassSpec(Some(1), Some(1), Some("mechanic"), "Mechanic", "A master of machines and technology.",
              6, "10 + CON", "4 + INT",
              Some(["Light Armor", "Basic Melee Weapons", "Small Arms"]),
              Some([Feature(1, "Artificial Intelligence", "You have an AI that assists you."),
                    Feature(1, "Custom Rig", "You have a custom rig for your tools.")]))
  }

  /** The test's mechanic is valid. */
  lemma MechanicIsValid()
    ensures IsValid(Mechanic())
  {
  }

  // ---------------------------------------------------------------------------
  // `signature`
  // ---------------------------------------------------------------------------

  /** The fixed part of the preimage: world id (0 when missing, 8 bytes),
      code ("" when missing), name, description, hit points (8 bytes),
      stamina and skill point expressions. */
  function HeadBytes(s: ClassSpec): seq<byte>
  {
    I64Bytes(s.worldId.GetOr(0)) + Utf8(s.code.GetOr("")) + Utf8(s.name) + Utf8(s.description)
    + I64Bytes(s.hitPoints) + Utf8(s.staminaExpression) + Utf8(s.skillpointExpression)
  }

  /** Each proficiency's bytes, one after the other. */
  function ProficiencyBytes(ps: seq<string>): seq<byte>
  {
    if ps == [] then [] else ProficiencyBytes(ps[..|ps| - 1]) + Utf8(ps[|ps| - 1])
  }

  /** One feature's bytes: level (4 bytes), name and description. */
  function OneFeatureBytes(f: Feature): seq<byte>
  {
    I32Bytes(f.level) + Utf8(f.name) + Utf8(f.description)
  }

  /** Each feature's bytes, one after the other. */
  function FeatureBytes(fs: seq<Feature>): seq<byte>
  {
    if fs == [] then [] else FeatureBytes(fs[..|fs| - 1]) + OneFeatureBytes(fs[|fs| - 1])
  }

  /** The whole preimage; a missing list contributes nothing. */
  function Preimage(s: ClassSpec): seq<byte>
  {
    HeadBytes(s) + ProficiencyBytes(s.proficiencies.GetOr([])) + FeatureBytes(s.features.GetOr([]))
  }

  /** The loop over the proficiencies: each one's bytes appended in turn. */
  method AppendProficiencies(signature: seq<byte>, ps: seq<string>) returns (r: seq<byte>)
    ensures r == signature + ProficiencyBytes(ps)
  {
    r := signature;
    var i := 0;
    while i < |ps|
      invariant 0 <= i <= |ps|
      invariant r == signature + ProficiencyBytes(ps[..i])
    {
      assert ps[..i + 1][..i] == ps[..i];
      r := r + Utf8(ps[i]);
      i := i + 1;
    }
    assert ps[..|ps|] == ps;
  }

  /** The loop over the features: each one's level, name and description
      appended in turn. */
  method AppendFeatures(signature: seq<byte>, fs: seq<Feature>) returns (r: seq<byte>)
    ensures r == signature + FeatureBytes(fs)
  {
    r := signature;
    var i := 0;
    while i < |fs|
      invariant 0 <= i <= |fs|
      invariant r == signature + FeatureBytes(fs[..i])
    {
      assert fs[..i + 1][..i] == fs[..i];
      ghost var before := r;
      r := r + I32Bytes(fs[i].level);
      r := r + Utf8(fs[i].name);
      r := r + Utf8(fs[i].description);
      assert r == before + OneFeatureBytes(fs[i]);
      AppendAssoc(signature, FeatureBytes(fs[..i]), OneFeatureBytes(fs[i]));
      i := i + 1;
    }
    assert fs[..|fs|] == fs;
  }

  /** `signature`: the fixed fields, then every proficiency, then every
      feature, appended in turn and hashed. */
  method Signature(s: ClassSpec, hash: seq<byte> -> seq<byte>) returns (sig: seq<byte>)
    ensures sig == hash(Preimage(s))
  {
    var signature: seq<byte> := [];
    signature := signature + I64Bytes(s.worldId.GetOr(0));
    assert signature == I64Bytes(s.worldId.GetOr(0));
    signature := signature + Utf8(s.code.GetOr(""));
    signature := signature + Utf8(s.name);
    signature := signature + Utf8(s.description);
    signature := signature + I64Bytes(s.hitPoints);
    signature := signature + Utf8(s.staminaExpression);
    signature := signature + Utf8(s.skillpointExpression);
    assert signature == HeadBytes(s);
    if s.proficiencies.Some? {
      signature := AppendProficiencies(signature, s.proficiencies.value);
    }
    assert signature == HeadBytes(s) + ProficiencyBytes(s.proficiencies.GetOr([]));
    if s.features.Some? {
      signature := AppendFeatures(signature, s.features.value);
    } else {
      assert signature == signature + FeatureBytes([]);
    }
    sig := hash(signature);
  }

  /** The id takes part in neither the validator nor the signature. */
  lemma IdIrrelevant(s: ClassSpec, id: Option<i64>)
    ensures IsValid(s.(id := id)) <==> IsValid(s)
    ensures Preimage(s.(id := id)) == Preimage(s)
  {
  }

  /** A missing list signs like an empty one, and a missing world id or code
      like 0 or "". */
  lemma MissingSignsLikeDefault(s: ClassSpec)
    ensures Preimage(s.(proficiencies := None)) == Preimage(s.(proficiencies := Some([])))
    ensures Preimage(s.(features := None)) == Preimage(s.(features := Some([])))
    ensures Preimage(s.(worldId := None)) == Preimage(s.(worldId := Some(0)))
    ensures Preimage(s.(code := None)) == Preimage(s.(code := Some("")))
  {
  }

  /** The first 8 bytes read back as the world id, 0 when missing. */
  lemma WorldIdAt(s: ClassSpec)
    ensures var p := Preimage(s);
      8 <= |p| && ToSigned(FromBeBytes(p[..8]), 8) == s.worldId.GetOr(0)
  {
    WorldIdSlice(s);
    I64InRange(s.worldId.GetOr(0));
    SignedRoundTrip(s.worldId.GetOr(0), 8);
  }

  lemma WorldIdSlice(s: ClassSpec)
    ensures var p := Preimage(s); 8 <= |p| && p[..8] == I64Bytes(s.worldId.GetOr(0))
  {
    var p, w := Preimage(s), I64Bytes(s.worldId.GetOr(0));
    var h := HeadBytes(s);
    forall j | 0 <= j < 8
      ensures h[j] == w[j]
    {
    }
    forall j | 0 <= j < 8
      ensures p[j] == w[j]
    {
      assert p[j] == h[j];
    }
  }

  /** The proficiencies' bytes are the bytes of their concatenation, so the
      signature cannot tell where one proficiency ends and the next begins:
      ["ab"] and ["a", "b"] sign alike. */
  lemma ProficiencyBoundariesLost()
    ensures ProficiencyBytes(["a", "b"]) == ProficiencyBytes(["ab"])
  {
    Utf8Concat("a", "b");
    assert ["a", "b"][..1] == ["a"];
    assert "a" + "b" == "ab";
  }
}
