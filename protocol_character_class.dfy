/** The protocol crate's `CharacterClass`: its validator and its signature
    preimage. */
module ProtocolCharacterClass {

  import opened Wrappers
  import opened Numbers
  import opened Encoding

  /** `CharacterClass` of the protocol crate; the id is optional. */
  datatype CharacterClass = CharacterClass(id: Option<i64>, name: string, description: string,
                                           hitPoints: i64, staminaExpression: string)

  /** `is_valid`: name, description and stamina expression non-empty and a
      positive number of hit points. */
  predicate IsValid(c: CharacterClass)
  {
    c.name != [] && c.description != [] && c.hitPoints > 0 && c.staminaExpression != []
  }

  /** The preimage: name, description, hit points (8 bytes, big-endian) and
      stamina expression. */
  function Preimage(c: CharacterClass): seq<byte>
  {
    Utf8(c.name) + Utf8(c.description) + I64Bytes(c.hitPoints) + Utf8(c.staminaExpression)
  }

  method Signature(c: CharacterClass, hash: seq<byte> -> seq<byte>) returns (sig: seq<byte>)
    ensures sig == hash(Preimage(c))
  {
    var signature: seq<byte> := [];
    signature := signature + Utf8(c.name);
    assert signature == Utf8(c.name);
    signature := signature + Utf8(c.description);
    signature := signature + I64Bytes(c.hitPoints);
    signature := signature + Utf8(c.staminaExpression);
    sig := hash(signature);
  }

  /** No number of hit points below one is valid, whatever the other fields
      hold. */
  lemma NonPositiveHitPointsInvalid(c: CharacterClass)
    requires c.hitPoints <= 0
    ensures !IsValid(c)
  {
  }

  /** A class with the required texts is valid exactly when its hit points
      are positive. */
  lemma ValidIffPositiveHitPoints(c: CharacterClass)
    requires c.name != [] && c.description != [] && c.staminaExpression != []
    ensures IsValid(c) <==> c.hitPoints > 0
  {
  }

  /** The id takes part in neither the validator nor the signature. */
  lemma IdIrrelevant(c: CharacterClass, id: Option<i64>)
    ensures IsValid(c.(id := id)) <==> IsValid(c)
    ensures Preimage(c.(id := id)) == Preimage(c)
  {
  }

  /** The hit points occupy the 8 bytes after name and description and read
      back as the value. */
  lemma HitPointsAt(c: CharacterClass)
    ensures var p, k := Preimage(c), |Utf8(c.name) + Utf8(c.description)|;
      k + 8 <= |p| && ToSigned(FromBeBytes(p[k..k + 8]), 8) == c.hitPoints
  {
    HitPointsSlice(c);
    I64InRange(c.hitPoints);
    DecodesAt(Preimage(c), |Utf8(c.name) + Utf8(c.description)|, c.hitPoints, 8);
  }

  lemma HitPointsSlice(c: CharacterClass)
    ensures var p, k := Preimage(c), |Utf8(c.name) + Utf8(c.description)|;
      k + 8 <= |p| && p[k..k + 8] == I64Bytes(c.hitPoints)
  {
    var p, q := Preimage(c), Utf8(c.name) + Utf8(c.description);
    var w := I64Bytes(c.hitPoints);
    forall j | |q| <= j < |q| + 8
      ensures p[j] == w[j - |q|]
    {
    }
  }
}
