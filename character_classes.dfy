/** The change detection of the character class API: the delta between a
    stored class and a candidate, the handler's decisions before it saves,
    the conversions between the protocol's class and the database records,
    and the hex rendering of signatures. */
module ClassChanges {

  import opened Wrappers
  import opened Numbers
  import opened Encoding
  import opened Api
  import opened Models

  /** The protocol's class feature as the handler uses it. */
  datatype ProtocolFeature = ProtocolFeature(level: i32, code: string, name: string, description: string)

  /** The protocol's character class as the handler uses it; id, code, world
      id, proficiencies and features may be missing. */
  datatype ProtocolClass = ProtocolClass(
    id: Option<i64>, code: Option<string>, worldId: Option<i64>, name: string, description: string,
    staminaExpression: string, hitPoints: i32, skillpointExpression: string,
    proficiencies: Option<seq<string>>, features: Option<seq<ProtocolFeature>>)

  /** `CharacterClassDelta`. */
  datatype Delta = Delta(existingClass: Option<ProtocolClass>, classChanges: Option<ProtocolClass>,
                         featureChanges: Option<seq<ProtocolFeature>>,
                         removedFeatures: Option<seq<string>>)

  /** `has_changed`: the delta carries class changes, feature changes or
      removed features. */
  predicate HasChanged(d: Delta)
  {
    d.classChanges.Some? || d.featureChanges.Some? || d.removedFeatures.Some?
  }

  // ---------------------------------------------------------------------------
  // `compute_character_class_changes`
  // ---------------------------------------------------------------------------

  /** The delta for a lookup of the stored class (`Err` when the lookup
      failed, `Ok(None)` when there is none) and a candidate; `sig` is the
      protocol class's signature. */
  function Changes(lookup: Result<Option<ProtocolClass>, string>, candidate: ProtocolClass,
                   sig: ProtocolClass -> seq<byte>): Result<Delta, string>
  {
    match lookup
    case Err(e) => Err(e)
    case Ok(None) => Ok(Delta(None, Some(candidate), candidate.features, None))
    case Ok(Some(existing)) =>
      if sig(existing) == sig(candidate) then Ok(Delta(None, None, None, None))
      else Ok(Delta(Some(existing), Some(candidate), candidate.features, None))
  }

  /** `compute_character_class_changes` with the stored class passed in: the
      delta starts empty and its fields are assigned as the lookup and the
      signatures dictate. */
  method ComputeChanges(lookup: Result<Option<ProtocolClass>, string>, candidate: ProtocolClass,
                        sig: ProtocolClass -> seq<byte>) returns (r: Result<Delta, string>)
    ensures r == Changes(lookup, candidate, sig)
  {
    if lookup.Err? {
      return Err(lookup.error);
    }
    var existing := lookup.value;
    var delta := Delta(None, None, None, None);
    if existing.None? {
      delta := delta.(classChanges := Some(candidate));
      delta := delta.(featureChanges := candidate.features);
    }
    if existing.Some? {
      if sig(existing.value) == sig(candidate) {
        return Ok(delta);
      }
      delta := delta.(existingClass := existing);
      delta := delta.(classChanges := Some(candidate));
      delta := delta.(featureChanges := candidate.features);
    }
    r := Ok(delta);
  }

  /** The three outcomes of a lookup that succeeded: a new class carries the
      candidate and its features and no stored class; a stored class that
      signs like the candidate gives the empty delta; a stored class that
      signs differently is carried along with the candidate and its
      features. Removed features are never set. */
  lemma ChangesCases(lookup: Result<Option<ProtocolClass>, string>, candidate: ProtocolClass,
                     sig: ProtocolClass -> seq<byte>)
    ensures lookup.Err? <==> Changes(lookup, candidate, sig).Err?
    ensures lookup.Err? ==> Changes(lookup, candidate, sig).error == lookup.error
    ensures lookup == Ok(None) ==>
      Changes(lookup, candidate, sig).value == Delta(None, Some(candidate), candidate.features, None)
    ensures lookup.Ok? && lookup.value.Some? && sig(lookup.value.value) == sig(candidate) ==>
      Changes(lookup, candidate, sig).value == Delta(None, None, None, None)
    ensures lookup.Ok? && lookup.value.Some? && sig(lookup.value.value) != sig(candidate) ==>
      Changes(lookup, candidate, sig).value ==
      Delta(lookup.value, Some(candidate), candidate.features, None)
    ensures Changes(lookup, candidate, sig).Ok? ==>
      Changes(lookup, candidate, sig).value.removedFeatures.None?
  {
  }

  /** A delta from a successful lookup reports a change exactly when there is
      no stored class or the stored one signs differently. */
  lemma ChangedIffNewOrDifferent(lookup: Result<Option<ProtocolClass>, string>,
                                 candidate: ProtocolClass, sig: ProtocolClass -> seq<byte>)
    requires lookup.Ok?
    ensures HasChanged(Changes(lookup, candidate, sig).value) <==>
      lookup.value.None? || sig(lookup.value.value) != sig(candidate)
  {
  }

  // ---------------------------------------------------------------------------
  // `create_or_update_character_class`, up to the transaction
  // ---------------------------------------------------------------------------

  /** Where the handler goes: it answers at once, or saves a delta. */
  datatype Step = Respond(response: ApiResponse<ProtocolClass>) | Save(delta: Delta)

  /** The handler up to the transaction: `validation` is the candidate's
      `validate()`, `connected` whether the pool gave a connection, `world`
      the world found by code, and `lookup` the lookup of the stored class. */
  function Handle(validation: Result<(), seq<string>>, connected: bool, world: Option<World>,
                  lookup: Result<Option<ProtocolClass>, string>, candidate: ProtocolClass,
                  sig: ProtocolClass -> seq<byte>): (s: Step)
    ensures validation.Err? ==> s == Respond(BadRequest(validation.error))
    ensures validation.Ok? && !connected ==> s == Respond(Error("Failed to get connection"))
    ensures validation.Ok? && connected && world.None? ==> s == Respond(NotFound("World not found"))
    ensures validation.Ok? && connected && world.Some? && lookup.Err? ==>
      s == Respond(Error("Failed to compute character class changes"))
    ensures s.Save? ==> HasChanged(s.delta) && Changes(lookup, candidate, sig) == Ok(s.delta)
  {
    if validation.Err? then Respond(BadRequest(validation.error))
    else if !connected then Respond(Error("Failed to get connection"))
    else if world.None? then Respond(NotFound("World not found"))
    else match Changes(lookup, candidate, sig)
      case Err(_) => Respond(Error("Failed to compute character class changes"))
      case Ok(delta) => if !HasChanged(delta) then Respond(NotChanged) else Save(delta)
  }

  /** A stored class that signs like a valid candidate is answered with
      NotChanged and nothing is saved. */
  lemma SameSignatureNotChanged(world: World, existing: ProtocolClass, candidate: ProtocolClass,
                                sig: ProtocolClass -> seq<byte>)
    requires sig(existing) == sig(candidate)
    ensures Handle(Ok(()), true, Some(world), Ok(Some(existing)), candidate, sig) == Respond(NotChanged)
  {
  }

  /** A valid candidate with no stored class, or a differently signing one,
      goes on to be saved with the candidate as the class change. */
  lemma NewOrDifferentIsSaved(world: World, lookup: Result<Option<ProtocolClass>, string>,
                              candidate: ProtocolClass, sig: ProtocolClass -> seq<byte>)
    requires lookup.Ok?
    requires lookup.value.None? || sig(lookup.value.value) != sig(candidate)
    ensures var s := Handle(Ok(()), true, Some(world), lookup, candidate, sig);
      s.Save? && s.delta.classChanges == Some(candidate) && s.delta.featureChanges == candidate.features
  {
  }

  // ---------------------------------------------------------------------------
  // Conversions between the protocol class and the database records
  // ---------------------------------------------------------------------------

  /** `serde_json::to_value` of the optional proficiency list: `null` when
      missing, an array of strings otherwise. */
  function ProficienciesToJson(ps: Option<seq<string>>): (v: JsonValue)
    ensures ps.None? <==> v.JNull?
    ensures ps.Some? ==> v.JArray? && |v.items| == |ps.value|
    ensures ps.Some? ==> forall i | 0 <= i < |ps.value| :: v.items[i] == JString(ps.value[i])
  {
    match ps
    case None => JNull
    case Some(list) => JArray(seq(|list|, i requires 0 <= i < |list| => JString(list[i])))
  }

  /** Reading proficiencies back: the array's strings, with "" for every
      entry that is not a string, and no entries when the value is not an
      array. */
  function ProficienciesFromJson(v: JsonValue): (ps: seq<string>)
    ensures !v.JArray? ==> ps == []
    ensures v.JArray? ==> |ps| == |v.items|
    ensures v.JArray? ==> forall i | 0 <= i < |v.items| ::
      ps[i] == (if v.items[i].JString? then v.items[i].s else "")
  {
    if v.JArray? then
      seq(|v.items|, i requires 0 <= i < |v.items| => if v.items[i].JString? then v.items[i].s else "")
    else []
  }

  /** Proficiencies survive the trip to the database and back; a missing list
      comes back empty. */
  lemma ProficienciesRoundTrip(ps: Option<seq<string>>)
    ensures ProficienciesFromJson(ProficienciesToJson(ps)) == ps.GetOr([])
  {
  }

  /** `protocol_character_class_to_entity`: missing id and world id become 0,
      a missing code "", both timestamps are `now`, and the other fields are
      copied. */
  function ClassToEntity(c: ProtocolClass, now: Timestamp): (e: CharacterClass)
    ensures e.id == c.id.GetOr(0) && e.worldId == c.worldId.GetOr(0) && e.code == c.code.GetOr("")
    ensures e.name == c.name && e.description == c.description && e.hitPoints == c.hitPoints
    ensures e.staminaExpression == c.staminaExpression
    ensures e.skillpointExpression == c.skillpointExpression
    ensures e.proficiencies == ProficienciesToJson(c.proficiencies)
    ensures e.createdAt == now && e.updatedAt == now
  {
    CharacterClass(c.id.GetOr(0), c.worldId.GetOr(0), c.code.GetOr(""), c.name, c.description,
                   c.hitPoints, c.staminaExpression, c.skillpointExpression,
                   ProficienciesToJson(c.proficiencies), now, now)
  }

  /** `protocol_character_class_feature_to_entity`: id and class id 0, both
      timestamps `now`, the other fields copied. */
  function FeatureToEntity(f: ProtocolFeature, now: Timestamp): (e: CharacterClassFeature)
    ensures e.id == 0 && e.classId == 0
    ensures e.level == f.level && e.code == f.code && e.name == f.name && e.description == f.description
    ensures e.createdAt == now && e.updatedAt == now
  {
    CharacterClassFeature(0, 0, f.level, f.code, f.name, f.description, now, now)
  }

  /** The protocol feature read back from a stored one. */
  function FeatureFromEntity(f: CharacterClassFeature): ProtocolFeature
  {
    ProtocolFeature(f.level, f.code, f.name, f.description)
  }

  /** The features read back from the stored list, in its order, or none
      when the list is empty. */
  function FeaturesFromEntities(fs: seq<CharacterClassFeature>): (r: Option<seq<ProtocolFeature>>)
    ensures fs == [] <==> r.None?
    ensures r.Some? ==> |r.value| == |fs| && forall i | 0 <= i < |fs| :: r.value[i] == FeatureFromEntity(fs[i])
  {
    if fs == [] then None else Some(seq(|fs|, i requires 0 <= i < |fs| => FeatureFromEntity(fs[i])))
  }

  /** The class part of `get_character_class_and_features`: id, code and
      world id present, the texts and hit points copied, proficiencies read
      from the stored value, and no features yet. */
  function ClassFromEntity(e: CharacterClass): ProtocolClass
  {
    ProtocolClass(Some(e.id), Some(e.code), Some(e.worldId), e.name, e.description,
                  e.staminaExpression, e.hitPoints, e.skillpointExpression,
                  Some(ProficienciesFromJson(e.proficiencies)), None)
  }

  /** `get_character_class_and_features` once both lookups succeeded: each
      stored feature is pushed onto the class's list, which is created on the
      first push. */
  method ReadBack(e: CharacterClass, fs: seq<CharacterClassFeature>) returns (c: ProtocolClass)
    ensures c == ClassFromEntity(e).(features := FeaturesFromEntities(fs))
  {
    c := ClassFromEntity(e);
    var i := 0;
    while i < |fs|
      invariant 0 <= i <= |fs|
      invariant c == ClassFromEntity(e).(features := FeaturesFromEntities(fs[..i]))
    {
      var feature := FeatureFromEntity(fs[i]);
      c := c.(features := Some(c.features.GetOr([]) + [feature]));
      assert FeaturesFromEntities(fs[..i + 1]).value == FeaturesFromEntities(fs[..i]).GetOr([]) + [feature];
      i := i + 1;
    }
    assert fs[..|fs|] == fs;
  }

  /** A class stored from a candidate reads back with the candidate's data:
      the code, world id and id defaults made explicit, missing
      proficiencies as an empty list, and the stored features in their
      order. */
  lemma StoredClassReadsBack(c: ProtocolClass, now: Timestamp, id: i64, worldId: i64,
                             features: seq<ProtocolFeature>)
    ensures var e := ClassToEntity(c, now).(id := id, worldId := worldId);
      var stored := seq(|features|, i requires 0 <= i < |features| => FeatureToEntity(features[i], now));
      ClassFromEntity(e).(features := FeaturesFromEntities(stored)) ==
      c.(id := Some(id), worldId := Some(worldId), code := Some(c.code.GetOr("")),
         proficiencies := Some(c.proficiencies.GetOr([])),
         features := if features == [] then None else Some(features))
  {
    var stored := seq(|features|, i requires 0 <= i < |features| => FeatureToEntity(features[i], now));
    ProficienciesRoundTrip(c.proficiencies);
    if features != [] {
      assert FeaturesFromEntities(stored).value == features;
    }
  }

  // ---------------------------------------------------------------------------
  // The transaction and the answer after it
  // ---------------------------------------------------------------------------

  /** One write of the transaction. */
  datatype Write = SaveClass(entity: CharacterClass)
                 | DeleteFeature(classId: i64, code: string)
                 | SaveFeature(feature: CharacterClassFeature)

  /** The record the transaction saves for a candidate: the stored class's id
      when there is one (0 when that has none), the candidate's otherwise,
      and the world's id. */
  function ClassToSave(candidate: ProtocolClass, delta: Delta, worldId: i64, now: Timestamp)
    : (e: CharacterClass)
    ensures e.worldId == worldId
    ensures delta.existingClass.Some? ==> e.id == delta.existingClass.value.id.GetOr(0)
    ensures delta.existingClass.None? ==> e.id == candidate.id.GetOr(0)
    ensures e == ClassToEntity(candidate, now).(id := e.id, worldId := worldId)
  {
    var e := ClassToEntity(candidate, now);
    e.(id := if delta.existingClass.Some? then delta.existingClass.value.id.GetOr(0) else e.id,
       worldId := worldId)
  }

  /** The codes of a feature list, in order. */
  function Codes(fs: seq<ProtocolFeature>): (cs: seq<string>)
    ensures |cs| == |fs| && forall i | 0 <= i < |fs| :: cs[i] == fs[i].code
  {
    if fs == [] then [] else Codes(fs[..|fs| - 1]) + [fs[|fs| - 1].code]
  }

  /** The writes for one changed feature: its code is deleted, then the
      feature is saved under the class's id. */
  function FeatureWrite(f: ProtocolFeature, classId: i64, now: Timestamp): seq<Write>
  {
    [DeleteFeature(classId, f.code), SaveFeature(FeatureToEntity(f, now).(classId := classId))]
  }

  /** The writes for the changed features, in order. */
  function FeatureWrites(fs: seq<ProtocolFeature>, classId: i64, now: Timestamp): (w: seq<Write>)
    ensures |w| == 2 * |fs|
    ensures forall i | 0 <= i < |fs| ::
      w[2 * i] == DeleteFeature(classId, fs[i].code) &&
      w[2 * i + 1] == SaveFeature(FeatureToEntity(fs[i], now).(classId := classId))
  {
    if fs == [] then [] else FeatureWrites(fs[..|fs| - 1], classId, now) + FeatureWrite(fs[|fs| - 1], classId, now)
  }

  /** The writes for the removed feature codes, in order. */
  function RemovalWrites(codes: seq<string>, classId: i64): (w: seq<Write>)
    ensures |w| == |codes|
    ensures forall i | 0 <= i < |codes| :: w[i] == DeleteFeature(classId, codes[i])
  {
    if codes == [] then [] else RemovalWrites(codes[..|codes| - 1], classId) + [DeleteFeature(classId, codes[|codes| - 1])]
  }

  /** The transaction's writes for a delta: the class record when the class
      changed (the store answering with `savedId`), then, unless there are
      neither feature changes nor removals, each changed feature and each
      removed code under the saved class's id. */
  function Transaction(delta: Delta, entity: CharacterClass, savedId: i64, now: Timestamp): seq<Write>
  {
    var head := if delta.classChanges.Some? then [SaveClass(entity)] else [];
    var classId := if delta.classChanges.Some? then savedId else entity.id;
    if delta.featureChanges.None? && delta.removedFeatures.None? then head
    else head + FeatureAndRemovalWrites(delta, classId, now)
  }

  /** The writes for the changed features, then those for the removed codes. */
  function FeatureAndRemovalWrites(delta: Delta, classId: i64, now: Timestamp): seq<Write>
  {
    FeatureWrites(delta.featureChanges.GetOr([]), classId, now) + RemovalWrites(delta.removedFeatures.GetOr([]), classId)
  }

  /** The feature codes a list of writes deletes, in order. */
  function DeletedCodes(ws: seq<Write>): seq<string>
  {
    if ws == [] then []
    else DeletedCodes(ws[..|ws| - 1]) + (if ws[|ws| - 1].DeleteFeature? then [ws[|ws| - 1].code] else [])
  }

  lemma {:induction false} DeletedCodesAppend(a: seq<Write>, b: seq<Write>)
    ensures DeletedCodes(a + b) == DeletedCodes(a) + DeletedCodes(b)
  {
    if b == [] {
      assert a + b == a;
    } else {
      var init := b[..|b| - 1];
      assert (a + b)[..|a + b| - 1] == a + init;
      assert (a + b)[|a + b| - 1] == b[|b| - 1];
      DeletedCodesAppend(a, init);
    }
  }

  /** The feature writes delete exactly the changed features' codes, in
      order. */
  lemma {:induction false} FeatureWritesDelete(fs: seq<ProtocolFeature>, classId: i64, now: Timestamp)
    ensures DeletedCodes(FeatureWrites(fs, classId, now)) == Codes(fs)
  {
    if fs != [] {
      var init, last := fs[..|fs| - 1], fs[|fs| - 1];
      FeatureWritesDelete(init, classId, now);
      var w := FeatureWrite(last, classId, now);
      DeletedCodesAppend(FeatureWrites(init, classId, now), w);
      assert w[..1] == [DeleteFeature(classId, last.code)];
      assert w[..1][..0] == [];
      assert DeletedCodes(w[..1]) == [last.code];
      assert DeletedCodes(w) == [last.code];
    }
  }

  /** The removal writes delete exactly the removed codes, in order. */
  lemma {:induction false} RemovalWritesDelete(codes: seq<string>, classId: i64)
    ensures DeletedCodes(RemovalWrites(codes, classId)) == codes
  {
    if codes != [] {
      RemovalWritesDelete(codes[..|codes| - 1], classId);
      assert codes == codes[..|codes| - 1] + [codes[|codes| - 1]];
    }
  }

  /** The writes of `w` after a head of `k` writes: for each changed
      feature, a delete of its code and then a save of the feature under
      `classId`. */
  lemma {:induction false} WritesLayout(w: seq<Write>, head: seq<Write>, k: nat, fs: seq<ProtocolFeature>, codes: seq<string>, classId: i64, now: Timestamp)
    requires w == head + FeatureWrites(fs, classId, now) + RemovalWrites(codes, classId) && |head| == k
    ensures |w| == k + 2 * |fs| + |codes|
    ensures forall i | 0 <= i < |fs| ::
      w[k + 2 * i] == DeleteFeature(classId, fs[i].code) &&
      w[k + 2 * i + 1] == SaveFeature(FeatureToEntity(fs[i], now).(classId := classId))
    ensures w[k + 2 * |fs|..] == RemovalWrites(codes, classId)
  {
    var fw := FeatureWrites(fs, classId, now);
    forall i | 0 <= i < |fs|
      ensures w[k + 2 * i] == DeleteFeature(classId, fs[i].code)
      ensures w[k + 2 * i + 1] == SaveFeature(FeatureToEntity(fs[i], now).(classId := classId))
    {
      assert w[k + 2 * i] == fw[2 * i];
      assert w[k + 2 * i + 1] == fw[2 * i + 1];
    }
    assert w[k + 2 * |fs|..] == RemovalWrites(codes, classId);
  }

  /** The writes of `w` from position `m` on delete the codes in order,
      under `classId`. */
  lemma RemovalsLayout(w: seq<Write>, m: nat, codes: seq<string>, classId: i64)
    requires m + |codes| == |w| && w[m..] == RemovalWrites(codes, classId)
    ensures forall j | 0 <= j < |codes| :: w[m + j] == DeleteFeature(classId, codes[j])
  {
    forall j | 0 <= j < |codes|
      ensures w[m + j] == DeleteFeature(classId, codes[j])
    {
      assert w[m + j] == w[m..][j];
    }
  }

  /** The transaction is the class record when the class changed, then the
      feature writes and the removal writes under the class id: the id the
      store gave the saved class, or the unchanged entity's id. */
  lemma TransactionShape(delta: Delta, entity: CharacterClass, savedId: i64, now: Timestamp)
    ensures delta.classChanges.Some? ==>
      (Transaction(delta, entity, savedId, now) ==
       [SaveClass(entity)] + FeatureWrites(delta.featureChanges.GetOr([]), savedId, now) +
       RemovalWrites(delta.removedFeatures.GetOr([]), savedId))
    ensures delta.classChanges.None? ==>
      (Transaction(delta, entity, savedId, now) ==
       [] + FeatureWrites(delta.featureChanges.GetOr([]), entity.id, now) +
       RemovalWrites(delta.removedFeatures.GetOr([]), entity.id))
  {
    var classId := if delta.classChanges.Some? then savedId else entity.id;
    if delta.featureChanges.None? && delta.removedFeatures.None? {
      assert FeatureWrites([], classId, now) == [] && RemovalWrites([], classId) == [];
    }
  }

  /** When the class changed, the transaction's writes, position by
      position: the class record first; then, for each changed feature, a
      delete of its code followed by a save of the feature, both under the
      id the store gave the saved class; then a delete of each removed code
      under that id; and nothing else. */
  lemma TransactionWritesSavedClass(delta: Delta, entity: CharacterClass, savedId: i64, now: Timestamp)
    requires delta.classChanges.Some?
    ensures var w, fs, codes := Transaction(delta, entity, savedId, now),
        delta.featureChanges.GetOr([]), delta.removedFeatures.GetOr([]);
      |w| == 1 + 2 * |fs| + |codes| && w[0] == SaveClass(entity) &&
      (forall i | 0 <= i < |fs| ::
        w[1 + 2 * i] == DeleteFeature(savedId, fs[i].code) &&
        w[1 + 2 * i + 1] == SaveFeature(FeatureToEntity(fs[i], now).(classId := savedId))) &&
      (forall j | 0 <= j < |codes| :: w[1 + 2 * |fs| + j] == DeleteFeature(savedId, codes[j]))
  {
    var w, fs, codes := Transaction(delta, entity, savedId, now),
      delta.featureChanges.GetOr([]), delta.removedFeatures.GetOr([]);
    TransactionShape(delta, entity, savedId, now);
    WritesLayout(w, [SaveClass(entity)], 1, fs, codes, savedId, now);
    RemovalsLayout(w, 1 + 2 * |fs|, codes, savedId);
  }

  /** When the class is unchanged, the transaction's writes, position by
      position: for each changed feature, a delete of its code followed by a
      save of the feature, both under the unchanged entity's id; then a
      delete of each removed code under that id; and nothing else. */
  lemma TransactionWritesKeptClass(delta: Delta, entity: CharacterClass, savedId: i64, now: Timestamp)
    requires delta.classChanges.None?
    ensures var w, fs, codes := Transaction(delta, entity, savedId, now),
        delta.featureChanges.GetOr([]), delta.removedFeatures.GetOr([]);
      |w| == 2 * |fs| + |codes| &&
      (forall i | 0 <= i < |fs| ::
        w[2 * i] == DeleteFeature(entity.id, fs[i].code) &&
        w[2 * i + 1] == SaveFeature(FeatureToEntity(fs[i], now).(classId := entity.id))) &&
      (forall j | 0 <= j < |codes| :: w[2 * |fs| + j] == DeleteFeature(entity.id, codes[j]))
  {
    var w, fs, codes := Transaction(delta, entity, savedId, now),
      delta.featureChanges.GetOr([]), delta.removedFeatures.GetOr([]);
    TransactionShape(delta, entity, savedId, now);
    WritesLayout(w, [], 0, fs, codes, entity.id, now);
    RemovalsLayout(w, 2 * |fs|, codes, entity.id);
  }

  /** The transaction deletes the codes of the changed features, then the
      removed codes, and nothing else. */
  lemma TransactionDeletes(delta: Delta, entity: CharacterClass, savedId: i64, now: Timestamp)
    ensures DeletedCodes(Transaction(delta, entity, savedId, now)) ==
      Codes(delta.featureChanges.GetOr([])) + delta.removedFeatures.GetOr([])
  {
    var head := if delta.classChanges.Some? then [SaveClass(entity)] else [];
    var classId := if delta.classChanges.Some? then savedId else entity.id;
    assert DeletedCodes(head) == [] by {
      if head != [] {
        assert head[..0] == [];
      }
    }
    FeatureAndRemovalDeletes(delta, classId, now);
    DeletedCodesAppend(head, FeatureAndRemovalWrites(delta, classId, now));
  }

  lemma FeatureAndRemovalDeletes(delta: Delta, classId: i64, now: Timestamp)
    ensures DeletedCodes(FeatureAndRemovalWrites(delta, classId, now)) ==
      Codes(delta.featureChanges.GetOr([])) + delta.removedFeatures.GetOr([])
  {
    FeatureWritesDelete(delta.featureChanges.GetOr([]), classId, now);
    RemovalWritesDelete(delta.removedFeatures.GetOr([]), classId);
    DeletedCodesAppend(FeatureWrites(delta.featureChanges.GetOr([]), classId, now),
                       RemovalWrites(delta.removedFeatures.GetOr([]), classId));
  }

  /** A delta the handler saves always carries the candidate as its class
      change, so the transaction starts by saving the class record. */
  lemma SavedDeltaSavesClass(validation: Result<(), seq<string>>, connected: bool, world: Option<World>,
                             lookup: Result<Option<ProtocolClass>, string>, candidate: ProtocolClass,
                             sig: ProtocolClass -> seq<byte>, savedId: i64, now: Timestamp)
    requires Handle(validation, connected, world, lookup, candidate, sig).Save?
    ensures var d := Handle(validation, connected, world, lookup, candidate, sig).delta;
      d.classChanges == Some(candidate) &&
      Transaction(d, ClassToSave(candidate, d, world.value.id, now), savedId, now)[0] ==
        SaveClass(ClassToSave(candidate, d, world.value.id, now))
  {
  }

  /** The answer after the transaction: `saved` says whether it committed,
      and `readBack` is the class read back by the path's code. */
  function Finish(saved: bool, readBack: Result<Option<ProtocolClass>, string>): (r: ApiResponse<ProtocolClass>)
    ensures !saved ==> r == Error("Failed to save character class")
    ensures saved && readBack.Err? ==> r == Error("Failed to get character class")
    ensures saved && readBack == Ok(None) ==> r == Error("character class not found")
    ensures r.JsonData? <==> saved && readBack.Ok? && readBack.value.Some?
    ensures r.JsonData? ==> r.data == readBack.value.value
  {
    if !saved then Error("Failed to save character class")
    else match readBack
      case Err(_) => Error("Failed to get character class")
      case Ok(None) => Error("character class not found")
      case Ok(Some(c)) => JsonData(c)
  }

  // ---------------------------------------------------------------------------
  // Removed features
  // ---------------------------------------------------------------------------

  /** As written, a stored class that signs differently from the candidate
      yields a delta without removals, so the transaction deletes no code
      the candidate does not carry: a feature the candidate dropped stays
      stored. */
  lemma DroppedFeaturesSurvive(existing: ProtocolClass, candidate: ProtocolClass,
                               sig: ProtocolClass -> seq<byte>, entity: CharacterClass,
                               savedId: i64, now: Timestamp, code: string)
    requires sig(existing) != sig(candidate)
    requires code in Codes(existing.features.GetOr([])) && code !in Codes(candidate.features.GetOr([]))
    ensures var d := Changes(Ok(Some(existing)), candidate, sig).value;
      d.removedFeatures.None? && code !in DeletedCodes(Transaction(d, entity, savedId, now))
  {
    var d := Changes(Ok(Some(existing)), candidate, sig).value;
    TransactionDeletes(d, entity, savedId, now);
  }

  /** The codes of the stored features that the candidate no longer
      carries, in the stored order. */
  function Dropped(stored: seq<ProtocolFeature>, kept: seq<string>): (cs: seq<string>)
    ensures forall c :: c in cs <==> c in Codes(stored) && c !in kept
  {
    if stored == [] then []
    else
      var init, last := stored[..|stored| - 1], stored[|stored| - 1];
      assert Codes(stored) == Codes(init) + [last.code];
      Dropped(init, kept) + (if last.code in kept then [] else [last.code])
  }

  /** The delta as documented: like `Changes`, but a stored class that signs
      differently also lists the codes of the features it has and the
      candidate lacks as removed (none when there are none). */
  function ChangesWithRemovals(lookup: Result<Option<ProtocolClass>, string>, candidate: ProtocolClass,
                               sig: ProtocolClass -> seq<byte>): (r: Result<Delta, string>)
    ensures r.Ok? <==> lookup.Ok?
    ensures r.Ok? ==> r.value.(removedFeatures := None) == Changes(lookup, candidate, sig).value
  {
    match Changes(lookup, candidate, sig)
    case Err(e) => Err(e)
    case Ok(d) =>
      if d.existingClass.None? then Ok(d)
      else
        var removed := Dropped(d.existingClass.value.features.GetOr([]), Codes(candidate.features.GetOr([])));
        Ok(d.(removedFeatures := if removed == [] then None else Some(removed)))
  }

  /** With removals listed, the transaction for a differently signing
      stored class deletes every stored feature's code: those the candidate
      keeps before re-adding them, the others for good; and it deletes no
      code that is neither stored nor the candidate's. */
  lemma RemovalsDeleteDropped(existing: ProtocolClass, candidate: ProtocolClass,
                              sig: ProtocolClass -> seq<byte>, entity: CharacterClass,
                              savedId: i64, now: Timestamp, code: string)
    requires sig(existing) != sig(candidate)
    ensures var d := ChangesWithRemovals(Ok(Some(existing)), candidate, sig).value;
      var deleted := DeletedCodes(Transaction(d, entity, savedId, now));
      && (code in Codes(existing.features.GetOr([])) ==> code in deleted)
      && (code in deleted ==> code in Codes(existing.features.GetOr([])) ||
                               code in Codes(candidate.features.GetOr([])))
  {
    var d := ChangesWithRemovals(Ok(Some(existing)), candidate, sig).value;
    TransactionDeletes(d, entity, savedId, now);
  }

  // ---------------------------------------------------------------------------
  // `pretty_print_vec`
  // ---------------------------------------------------------------------------

  const HexDigits := "0123456789abcdef"

  /** The `02x` format of a byte: two lowercase hex digits, high nibble first. */
  function HexByte(b: byte): (s: string)
    ensures |s| == 2
  {
    [HexDigits[b / 16], HexDigits[b % 16]]
  }

  /** The hex rendering of a byte string. */
  function Hex(v: seq<byte>): (s: string)
    ensures |s| == 2 * |v|
  {
    if v == [] then [] else Hex(v[..|v| - 1]) + HexByte(v[|v| - 1])
  }

  /** `pretty_print_vec`: the hex digits of each byte pushed in turn. */
  method PrettyPrintVec(v: seq<byte>) returns (result: string)
    ensures result == Hex(v)
  {
    result := "";
    var i := 0;
    while i < |v|
      invariant 0 <= i <= |v|
      invariant result == Hex(v[..i])
    {
      assert v[..i + 1][..i] == v[..i];
      result := result + HexByte(v[i]);
      i := i + 1;
    }
    assert v[..|v|] == v;
  }

  /** The value of a lowercase hex digit. */
  function HexValue(c: char): (n: nat)
    ensures n < 16
  {
    if '0' <= c <= '9' then c as nat - '0' as nat
    else if 'a' <= c <= 'f' then c as nat - 'a' as nat + 10
    else 0
  }

  /** Reads a hex rendering back, two digits per byte from the end. */
  function Unhex(s: string): seq<byte>
  {
    if |s| < 2 then [] else Unhex(s[..|s| - 2]) + [(16 * HexValue(s[|s| - 2]) + HexValue(s[|s| - 1])) as byte]
  }

  lemma HexDigitValue(n: nat)
    requires n < 16
    ensures HexValue(HexDigits[n]) == n
    ensures '0' <= HexDigits[n] <= '9' || 'a' <= HexDigits[n] <= 'f'
  {
  }

  /** The two digits of a byte read back as the byte. */
  lemma HexByteRoundTrip(b: byte)
    ensures 16 * HexValue(HexByte(b)[0]) + HexValue(HexByte(b)[1]) == b
  {
    HexDigitValue(b / 16);
    HexDigitValue(b % 16);
  }

  /** The rendering holds lowercase hex digits only. */
  lemma {:induction false} HexIsLowercase(v: seq<byte>)
    ensures forall i | 0 <= i < |Hex(v)| :: '0' <= Hex(v)[i] <= '9' || 'a' <= Hex(v)[i] <= 'f'
  {
    if v != [] {
      var init, last := v[..|v| - 1], v[|v| - 1];
      HexIsLowercase(init);
      HexDigitValue(last / 16);
      HexDigitValue(last % 16);
      var h, g, t := Hex(v), Hex(init), HexByte(last);
      assert h == g + t;
      forall i | 0 <= i < |h|
        ensures '0' <= h[i] <= '9' || 'a' <= h[i] <= 'f'
      {
        if i < |g| {
          assert h[i] == g[i];
        } else {
          assert h[i] == t[i - |g|];
        }
      }
    }
  }

  lemma UnhexAppend(g: string, t: string)
    requires |t| == 2
    ensures Unhex(g + t) == Unhex(g) + [(16 * HexValue(t[0]) + HexValue(t[1])) as byte]
  {
    var h := g + t;
    assert h[..|h| - 2] == g;
    assert h[|h| - 2] == t[0] && h[|h| - 1] == t[1];
  }

  lemma UnhexHexByte(g: string, b: byte)
    ensures Unhex(g + HexByte(b)) == Unhex(g) + [b]
  {
    UnhexAppend(g, HexByte(b));
    HexByteRoundTrip(b);
  }

  lemma SplitLast(v: seq<byte>)
    requires v != []
    ensures v == v[..|v| - 1] + [v[|v| - 1]]
  {
  }

  /** The rendering reads back as the bytes, so different signatures print
      differently. */
  lemma {:induction false} HexRoundTrip(v: seq<byte>)
    ensures Unhex(Hex(v)) == v
  {
    if v != [] {
      var init, last := v[..|v| - 1], v[|v| - 1];
      SplitLast(v);
      HexRoundTrip(init);
      UnhexHexByte(Hex(init), last);
    }
  }

  /** Each byte renders as two hex digits: 0 as "00", 255 as "ff", 10 as
      "0a". */
  lemma HexExamples()
    ensures Hex([0, 255, 10]) == "00ff0a"
  {
    assert [0, 255, 10][..2] == [0, 255];
    assert [0, 255][..1] == [0];
  }
}
