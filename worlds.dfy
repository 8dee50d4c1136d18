/** The world API's request body, `WorldDefinition`: its validator, its
    signature, its conversion to the stored `World` and the decisions of
    `create_new_game_world` and `create_or_update_game_world` once the world
    has been looked up by code. */
module Worlds {

  import opened Wrappers
  import opened Numbers
  import opened Encoding
  import opened Api
  import opened Models

  /** `WorldDefinition`: id and creation time are optional. */
  datatype WorldDefinition = WorldDefinition(id: Option<i64>, code: string, name: string,
                                             description: string, createdAt: Option<Timestamp>)

  /** `is_valid`: code, name and description are all non-empty. */
  predicate IsValid(d: WorldDefinition)
  {
    d.code != [] && d.name != [] && d.description != []
  }

  /** The definition's preimage: code, name and description. */
  function DefinitionPreimage(d: WorldDefinition): seq<byte>
  {
    Utf8(d.code) + Utf8(d.name) + Utf8(d.description)
  }

  method DefinitionSignature(d: WorldDefinition, hash: seq<byte> -> seq<byte>) returns (sig: seq<byte>)
    ensures sig == hash(DefinitionPreimage(d))
  {
    var signature: seq<byte> := [];
    signature := signature + Utf8(d.code);
    assert signature == Utf8(d.code);
    signature := signature + Utf8(d.name);
    signature := signature + Utf8(d.description);
    sig := hash(signature);
  }

  /** `to_world`: a missing id becomes 0, a missing creation time `now`, the
      update time is `now`, and code, name and description are copied. */
  function ToWorld(d: WorldDefinition, now: Timestamp): (w: World)
    ensures w.id == d.id.GetOr(0)
    ensures w.code == d.code && w.name == d.name && w.description == d.description
    ensures w.createdAt == d.createdAt.GetOr(now) && w.updatedAt == now
  {
    World(d.id.GetOr(0), d.code, d.name, d.description, d.createdAt.GetOr(now), now)
  }

  /** A definition signs like the world it converts to and like that
      world's insertable record, whatever its id and times: the handler's
      comparison of a definition with a stored world is a comparison of
      like with like. */
  lemma DefinitionSignsLikeWorld(d: WorldDefinition, now: Timestamp)
    ensures DefinitionPreimage(d) == WorldPreimage(ToWorld(d, now))
    ensures DefinitionPreimage(d) == NewWorldPreimage(AsNewWorld(ToWorld(d, now)))
    ensures DefinitionPreimage(d) == DefinitionPreimage(d.(id := None, createdAt := None))
  {
  }

  /** `create_new_game_world` after its lookup: `connected` says whether the
      pool gave a connection, `existing` is the world found under the
      definition's code, and `create` the result of inserting a record. */
  function CreateNewWorld(d: WorldDefinition, connected: bool, existing: Option<World>,
                          now: Timestamp, create: NewWorld -> Result<World, string>)
    : (r: ApiResponse<World>)
    ensures !connected ==> r == Error("Failed to get connection")
    ensures connected && !IsValid(d) ==> r == BadRequest(["Invalid world definition"])
    ensures connected && IsValid(d) && existing.Some? ==> r == BadRequest(["World already exists"])
    ensures connected && IsValid(d) && existing.None? ==>
      var c := create(AsNewWorld(ToWorld(d, now)));
      r == if c.Ok? then JsonData(c.value) else Error(c.error)
    ensures !r.Created? && !r.NotChanged?
  {
    if !connected then Error("Failed to get connection")
    else if !IsValid(d) then BadRequest(["Invalid world definition"])
    else if existing.Some? then BadRequest(["World already exists"])
    else match create(AsNewWorld(ToWorld(d, now)))
      case Ok(w) => JsonData(w)
      case Err(e) => Error(e)
  }

  /** The world `create_or_update_game_world` stores: the stored world's id
      (0 when there is none), the definition's data, the creation time given
      or `now`, and `now` as update time. */
  function WorldToStore(d: WorldDefinition, found: Option<World>, now: Timestamp): (w: World)
    ensures w.id == (if found.Some? then found.value.id else 0)
    ensures w == ToWorld(d, now).(id := w.id)
  {
    World(if found.Some? then found.value.id else 0, d.code, d.name, d.description,
          d.createdAt.GetOr(now), now)
  }

  /** `create_or_update_game_world` as written: `pathCode` is the code in the
      path, `found` the world stored under the definition's code, and `store`
      the result of `create_or_update`. A stored world whose signature equals
      the definition's is left alone. */
  function CreateOrUpdateWorld(d: WorldDefinition, pathCode: string, connected: bool,
                               found: Option<World>, now: Timestamp, hash: seq<byte> -> seq<byte>,
                               store: World -> Result<World, string>): (r: ApiResponse<World>)
    ensures !connected ==> r == Error("Failed to get connection")
    ensures connected && !IsValid(d) ==> r == BadRequest(["Invalid world definition"])
    ensures connected && IsValid(d) && d.code != pathCode ==> r == BadRequest(["World code mismatch"])
    ensures r.NotChanged? <==>
      connected && IsValid(d) && d.code == pathCode && found.Some?
      && hash(DefinitionPreimage(d)) == hash(WorldPreimage(found.value))
    ensures r.JsonData? ==>
      connected && IsValid(d) && d.code == pathCode && store(WorldToStore(d, found, now)) == Ok(r.data)
  {
    if !connected then Error("Failed to get connection")
    else if !IsValid(d) then BadRequest(["Invalid world definition"])
    else if d.code != pathCode then BadRequest(["World code mismatch"])
    else if found.Some? && hash(DefinitionPreimage(d)) == hash(WorldPreimage(found.value)) then NotChanged
    else match store(WorldToStore(d, found, now))
      case Ok(w) => JsonData(w)
      case Err(e) => Error(e)
  }

  /** A stored world with the definition's code, name and description is not
      written again. */
  lemma UnchangedWorldIsNotStored(d: WorldDefinition, found: World, now: Timestamp,
                                  hash: seq<byte> -> seq<byte>, store: World -> Result<World, string>)
    requires IsValid(d)
    requires found.code == d.code && found.name == d.name && found.description == d.description
    ensures CreateOrUpdateWorld(d, d.code, true, Some(found), now, hash, store) == NotChanged
  {
    assert DefinitionPreimage(d) == WorldPreimage(found);
  }

  /** Validity is checked before the path code: an invalid definition is
      reported as invalid even when its code also differs from the path's. */
  lemma ValidityBeforeMismatch(d: WorldDefinition, pathCode: string, found: Option<World>,
                               now: Timestamp, hash: seq<byte> -> seq<byte>,
                               store: World -> Result<World, string>)
    requires !IsValid(d) && d.code != pathCode
    ensures CreateOrUpdateWorld(d, pathCode, true, found, now, hash, store)
            == BadRequest(["Invalid world definition"])
  {
  }

  /** An update that goes through writes the stored world's id back, or 0
      for a world not stored yet. */
  lemma UpdateReusesStoredId(d: WorldDefinition, found: Option<World>, now: Timestamp,
                             hash: seq<byte> -> seq<byte>, store: World -> Result<World, string>)
    requires IsValid(d)
    requires found.Some? ==> hash(DefinitionPreimage(d)) != hash(WorldPreimage(found.value))
    ensures var r := CreateOrUpdateWorld(d, d.code, true, found, now, hash, store);
      var w := WorldToStore(d, found, now);
      && (found.Some? ==> w.id == found.value.id)
      && (found.None? ==> w.id == 0)
      && (r.JsonData? || r == Error(store(w).error))
  {
  }

  /** The signature does not separate name from description, so as written
      an update that moves text from the name to the description is taken
      for no change and dropped. */
  lemma UpdateCanBeDropped(now: Timestamp, hash: seq<byte> -> seq<byte>,
                           store: World -> Result<World, string>)
    ensures var d := WorldDefinition(None, "w", "ab", "c", None);
      var found := World(7, "w", "a", "bc", now, now);
      && (found.name, found.description) != (d.name, d.description)
      && CreateOrUpdateWorld(d, "w", true, Some(found), now, hash, store) == NotChanged
  {
    var d := WorldDefinition(None, "w", "ab", "c", None);
    var found := World(7, "w", "a", "bc", now, now);
    Utf8Concat("a", "b");
    Utf8Concat("b", "c");
    assert "ab" == "a" + "b" && "bc" == "b" + "c";
    assert "ab" != "a";
    assert DefinitionPreimage(d) == WorldPreimage(found);
  }

  /** `create_or_update_game_world` as intended: a stored world is left alone
      only when its code, name and description are those of the definition. */
  function CreateOrUpdateWorldFieldwise(d: WorldDefinition, pathCode: string, connected: bool,
                                        found: Option<World>, now: Timestamp,
                                        store: World -> Result<World, string>): (r: ApiResponse<World>)
    ensures !connected ==> r == Error("Failed to get connection")
    ensures connected && !IsValid(d) ==> r == BadRequest(["Invalid world definition"])
    ensures connected && IsValid(d) && d.code != pathCode ==> r == BadRequest(["World code mismatch"])
    ensures r.JsonData? ==>
      connected && IsValid(d) && d.code == pathCode && store(WorldToStore(d, found, now)) == Ok(r.data)
  {
    if !connected then Error("Failed to get connection")
    else if !IsValid(d) then BadRequest(["Invalid world definition"])
    else if d.code != pathCode then BadRequest(["World code mismatch"])
    else if found.Some? && SameData(d, found.value) then NotChanged
    else match store(WorldToStore(d, found, now))
      case Ok(w) => JsonData(w)
      case Err(e) => Error(e)
  }

  /** The definition and the stored world carry the same data. */
  predicate SameData(d: WorldDefinition, w: World)
  {
    w.code == d.code && w.name == d.name && w.description == d.description
  }

  /** The corrected decision drops an update exactly when nothing the
      definition carries has changed, and otherwise agrees with the written
      one on every world the hash tells apart. */
  lemma FieldwiseDropsOnlyUnchanged(d: WorldDefinition, pathCode: string, found: Option<World>,
                                    now: Timestamp, hash: seq<byte> -> seq<byte>,
                                    store: World -> Result<World, string>)
    ensures CreateOrUpdateWorldFieldwise(d, pathCode, true, found, now, store).NotChanged?
            <==> IsValid(d) && d.code == pathCode && found.Some? && SameData(d, found.value)
    ensures (found.Some? ==> SameData(d, found.value)
                             || hash(DefinitionPreimage(d)) != hash(WorldPreimage(found.value)))
            ==> CreateOrUpdateWorldFieldwise(d, pathCode, true, found, now, store)
                == CreateOrUpdateWorld(d, pathCode, true, found, now, hash, store)
  {
    if found.Some? && SameData(d, found.value) {
      assert DefinitionPreimage(d) == WorldPreimage(found.value);
    }
  }
}
