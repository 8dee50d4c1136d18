/** The item API's request body, `ItemDefinition`: its validator, its
    signature, its conversion to the stored `Item` and the decision
    `create_item` takes once it has looked the world and the item up. */
module Items {

  import opened Wrappers
  import opened Numbers
  import opened Encoding
  import opened Api
  import opened Models

  /** `ItemDefinition`: id, world id and creation time are optional. */
  datatype ItemDefinition = ItemDefinition(
    id: Option<i64>, worldId: Option<i64>, categoryId: i64, code: string, itemType: string,
    name: string, description: string, itemProperties: JsonValue, basePrice: i64,
    createdAt: Option<Timestamp>)

  // ---------------------------------------------------------------------------
  // `is_valid`
  // ---------------------------------------------------------------------------

  /** The six checks of `is_valid`, in the order it runs them. */
  datatype Check = CategoryCheck | CodeCheck | TypeCheck | NameCheck | DescriptionCheck | PriceCheck

  /** Whether a check fails for a definition. */
  predicate Fails(d: ItemDefinition, c: Check)
  {
    match c
    case CategoryCheck => d.categoryId <= 0
    case CodeCheck => d.code == []
    case TypeCheck => d.itemType == []
    case NameCheck => d.name == []
    case DescriptionCheck => d.description == []
    case PriceCheck => d.basePrice <= 0
  }

  /** The message a failing check pushes. */
  function Message(c: Check): string
  {
    match c
    case CategoryCheck => "Category ID is required"
    case CodeCheck => "Code is required"
    case TypeCheck => "Item type is required"
    case NameCheck => "Name is required"
    case DescriptionCheck => "Description is required"
    case PriceCheck => "Base price must be greater than 0"
  }

  /** The position of a check in the order `is_valid` runs them. */
  function Rank(c: Check): nat
  {
    match c
    case CategoryCheck => 0
    case CodeCheck => 1
    case TypeCheck => 2
    case NameCheck => 3
    case DescriptionCheck => 4
    case PriceCheck => 5
  }

  /** The check, as a one-element list when it fails. */
  function IfFails(d: ItemDefinition, c: Check): seq<Check>
  {
    if Fails(d, c) then [c] else []
  }

  /** The failing checks, in check order. */
  function Failures(d: ItemDefinition): seq<Check>
  {
    IfFails(d, CategoryCheck) + IfFails(d, CodeCheck) + IfFails(d, TypeCheck)
    + IfFails(d, NameCheck) + IfFails(d, DescriptionCheck) + IfFails(d, PriceCheck)
  }

  /** The messages of a list of checks, in the same order. */
  function MessagesOf(cs: seq<Check>): (ms: seq<string>)
    ensures |ms| == |cs|
  {
    if cs == [] then [] else MessagesOf(cs[..|cs| - 1]) + [Message(cs[|cs| - 1])]
  }

  /** The error list `is_valid` collects. */
  function ValidationErrors(d: ItemDefinition): seq<string>
  {
    MessagesOf(Failures(d))
  }

  /** Every field the validator checks is acceptable. */
  predicate Acceptable(d: ItemDefinition)
  {
    d.categoryId > 0 && d.code != [] && d.itemType != [] && d.name != [] && d.description != []
    && d.basePrice > 0
  }

  /** One step of `is_valid`: a failing check appends its message. */
  lemma PushStep(d: ItemDefinition, kinds: seq<Check>, c: Check)
    ensures MessagesOf(kinds + IfFails(d, c)) ==
      MessagesOf(kinds) + (if Fails(d, c) then [Message(c)] else [])
  {
    if Fails(d, c) {
      assert (kinds + [c])[..|kinds|] == kinds;
    } else {
      assert kinds + IfFails(d, c) == kinds;
    }
  }

  /** One check of `is_valid`: when it fails, its message is pushed. */
  method PushIfFailing(d: ItemDefinition, c: Check, errors: seq<string>, ghost kinds: seq<Check>)
    returns (errors': seq<string>)
    requires errors == MessagesOf(kinds)
    ensures errors' == MessagesOf(kinds + IfFails(d, c))
  {
    PushStep(d, kinds, c);
    if Fails(d, c) {
      errors' := errors + [Message(c)];
    } else {
      errors' := errors;
    }
  }

  /** `is_valid`: the six checks run in order, each failing one pushing its
      message; the result is `Ok` when none failed and `Err` with the
      messages otherwise. */
  method IsValid(d: ItemDefinition) returns (r: Result<(), seq<string>>)
    ensures r.Ok? <==> Acceptable(d)
    ensures r.Err? ==> r.error == ValidationErrors(d) && r.error != []
  {
    var errors: seq<string> := [];
    ghost var kinds: seq<Check> := [];
    errors := PushIfFailing(d, CategoryCheck, errors, kinds);
    kinds := kinds + IfFails(d, CategoryCheck);
    errors := PushIfFailing(d, CodeCheck, errors, kinds);
    kinds := kinds + IfFails(d, CodeCheck);
    errors := PushIfFailing(d, TypeCheck, errors, kinds);
    kinds := kinds + IfFails(d, TypeCheck);
    errors := PushIfFailing(d, NameCheck, errors, kinds);
    kinds := kinds + IfFails(d, NameCheck);
    errors := PushIfFailing(d, DescriptionCheck, errors, kinds);
    kinds := kinds + IfFails(d, DescriptionCheck);
    errors := PushIfFailing(d, PriceCheck, errors, kinds);
    kinds := kinds + IfFails(d, PriceCheck);
    assert kinds == Failures(d) by {
      assert [] + IfFails(d, CategoryCheck) == IfFails(d, CategoryCheck);
    }
    FailuresIffNotAcceptable(d);
    if errors == [] {
      r := Ok(());
    } else {
      r := Err(errors);
    }
  }

  /** A check is among the failures exactly when it fails. */
  lemma FailuresAreFailingChecks(d: ItemDefinition, c: Check)
    ensures c in Failures(d) <==> Fails(d, c)
  {
    var a, b, t := IfFails(d, CategoryCheck), IfFails(d, CodeCheck), IfFails(d, TypeCheck);
    var n, e, p := IfFails(d, NameCheck), IfFails(d, DescriptionCheck), IfFails(d, PriceCheck);
    assert c in Failures(d) <==> c in a || c in b || c in t || c in n || c in e || c in p;
    InIfFails(d, c, CategoryCheck);
    InIfFails(d, c, CodeCheck);
    InIfFails(d, c, TypeCheck);
    InIfFails(d, c, NameCheck);
    InIfFails(d, c, DescriptionCheck);
    InIfFails(d, c, PriceCheck);
  }

  lemma InIfFails(d: ItemDefinition, x: Check, c: Check)
    ensures x in IfFails(d, c) <==> x == c && Fails(d, c)
  {
  }

  /** There are no failures exactly when every field is acceptable. */
  lemma FailuresIffNotAcceptable(d: ItemDefinition)
    ensures Failures(d) == [] <==> Acceptable(d)
  {
    if !Acceptable(d) {
      if d.categoryId <= 0 { FailuresAreFailingChecks(d, CategoryCheck); }
      else if d.code == [] { FailuresAreFailingChecks(d, CodeCheck); }
      else if d.itemType == [] { FailuresAreFailingChecks(d, TypeCheck); }
      else if d.name == [] { FailuresAreFailingChecks(d, NameCheck); }
      else if d.description == [] { FailuresAreFailingChecks(d, DescriptionCheck); }
      else { FailuresAreFailingChecks(d, PriceCheck); }
    }
  }

  /** Ranks strictly increase along a list. */
  predicate InCheckOrder(cs: seq<Check>)
  {
    forall i, j | 0 <= i < j < |cs| :: Rank(cs[i]) < Rank(cs[j])
  }

  /** Appending a check ranked above everything before it keeps the order,
      and everything in the longer list is ranked at most as high as it. */
  lemma OrderAppend(a: seq<Check>, d: ItemDefinition, c: Check)
    requires InCheckOrder(a)
    requires forall x | x in a :: Rank(x) < Rank(c)
    ensures InCheckOrder(a + IfFails(d, c))
    ensures forall x | x in a + IfFails(d, c) :: Rank(x) <= Rank(c)
  {
    var b := a + IfFails(d, c);
    forall i, j | 0 <= i < j < |b|
      ensures Rank(b[i]) < Rank(b[j])
    {
      if j >= |a| {
        assert b[i] in a;
      }
    }
  }

  /** The failures come in the fixed order category, code, type, name,
      description, price. */
  lemma FailuresInCheckOrder(d: ItemDefinition)
    ensures InCheckOrder(Failures(d))
  {
    var p0: seq<Check> := [];
    OrderAppend(p0, d, CategoryCheck);
    var p1 := p0 + IfFails(d, CategoryCheck);
    OrderAppend(p1, d, CodeCheck);
    var p2 := p1 + IfFails(d, CodeCheck);
    OrderAppend(p2, d, TypeCheck);
    var p3 := p2 + IfFails(d, TypeCheck);
    OrderAppend(p3, d, NameCheck);
    var p4 := p3 + IfFails(d, NameCheck);
    OrderAppend(p4, d, DescriptionCheck);
    var p5 := p4 + IfFails(d, DescriptionCheck);
    OrderAppend(p5, d, PriceCheck);
    assert p1 == IfFails(d, CategoryCheck);
  }

  /** The six messages are different from each other. */
  lemma MessageInjective(c1: Check, c2: Check)
    requires Message(c1) == Message(c2)
    ensures c1 == c2
  {
    var m1, m2 := Message(c1), Message(c2);
    assert |m1| == |m2| && m1[0] == m2[0] && m1[1] == m2[1];
  }

  /** A list's messages are the messages of its members. */
  lemma {:induction false} MessagesOfMembers(cs: seq<Check>, c: Check)
    ensures Message(c) in MessagesOf(cs) <==> exists c' :: c' in cs && Message(c') == Message(c)
  {
    if cs != [] {
      MessagesOfMembers(cs[..|cs| - 1], c);
      var last := cs[|cs| - 1];
      assert cs == cs[..|cs| - 1] + [last];
      if Message(c) in MessagesOf(cs) && Message(c) != Message(last) {
        var c' :| c' in cs[..|cs| - 1] && Message(c') == Message(c);
        assert c' in cs;
      }
    }
  }

  /** Each message is reported exactly when its own check fails. */
  lemma MessageIffCheckFails(d: ItemDefinition, c: Check)
    ensures Message(c) in ValidationErrors(d) <==> Fails(d, c)
  {
    MessagesOfMembers(Failures(d), c);
    FailuresAreFailingChecks(d, c);
    if Message(c) in ValidationErrors(d) {
      var c' :| c' in Failures(d) && Message(c') == Message(c);
      MessageInjective(c', c);
    }
  }

  /** The error list is the messages of the failing checks, in check order,
      one per failing check. */
  lemma ErrorsInCheckOrder(d: ItemDefinition)
    ensures |ValidationErrors(d)| == |Failures(d)|
    ensures forall i | 0 <= i < |Failures(d)| :: ValidationErrors(d)[i] == Message(Failures(d)[i])
    ensures InCheckOrder(Failures(d))
  {
    MessagesOfIndex(Failures(d));
    FailuresInCheckOrder(d);
  }

  lemma {:induction false} MessagesOfIndex(cs: seq<Check>)
    ensures forall i | 0 <= i < |cs| :: MessagesOf(cs)[i] == Message(cs[i])
  {
    if cs != [] {
      MessagesOfIndex(cs[..|cs| - 1]);
    }
  }

  /** A definition with every check failing reports all six messages, in
      order. */
  lemma AllChecksFail(d: ItemDefinition)
    requires d.categoryId <= 0 && d.basePrice <= 0
    requires d.code == [] && d.itemType == [] && d.name == [] && d.description == []
    ensures Failures(d) == [CategoryCheck, CodeCheck, TypeCheck, NameCheck, DescriptionCheck, PriceCheck]
  {
  }

  // ---------------------------------------------------------------------------
  // `signature` and `to_item`
  // ---------------------------------------------------------------------------

  /** The definition's preimage: the world id only when present, then
      category id, code, item type, name, description and base price. */
  function DefinitionPreimage(d: ItemDefinition): seq<byte>
  {
    (if d.worldId.Some? then I64Bytes(d.worldId.value) else [])
    + I64Bytes(d.categoryId) + Utf8(d.code) + Utf8(d.itemType) + Utf8(d.name)
    + Utf8(d.description) + I64Bytes(d.basePrice)
  }

  method DefinitionSignature(d: ItemDefinition, hash: seq<byte> -> seq<byte>) returns (sig: seq<byte>)
    ensures sig == hash(DefinitionPreimage(d))
  {
    var signature: seq<byte> := [];
    if d.worldId.Some? {
      signature := signature + I64Bytes(d.worldId.value);
      assert signature == I64Bytes(d.worldId.value);
    }
    signature := signature + I64Bytes(d.categoryId);
    signature := signature + Utf8(d.code);
    signature := signature + Utf8(d.itemType);
    signature := signature + Utf8(d.name);
    signature := signature + Utf8(d.description);
    signature := signature + I64Bytes(d.basePrice);
    sig := hash(signature);
  }

  /** `to_item`: missing id and world id become 0, a missing creation time
      becomes `now`, the update time is `now`, and every other field is
      copied. */
  function ToItem(d: ItemDefinition, now: Timestamp): (i: Item)
    ensures i.id == d.id.GetOr(0) && i.worldId == d.worldId.GetOr(0)
    ensures i.createdAt == d.createdAt.GetOr(now) && i.updatedAt == now
    ensures i.categoryId == d.categoryId && i.code == d.code && i.itemType == d.itemType
    ensures i.name == d.name && i.description == d.description
    ensures i.itemProperties == d.itemProperties && i.basePrice == d.basePrice
  {
    Item(d.id.GetOr(0), d.worldId.GetOr(0), d.code, d.itemType, d.categoryId, d.name,
         d.description, d.itemProperties, d.basePrice, d.createdAt.GetOr(now), now)
  }

  /** The definition signs like the item it converts to when it names its
      world; without a world id the item's preimage has eight zero bytes in
      front that the definition's lacks. */
  lemma ToItemPreimage(d: ItemDefinition, now: Timestamp)
    ensures d.worldId.Some? ==> ItemPreimage(ToItem(d, now)) == DefinitionPreimage(d)
    ensures d.worldId.None? ==> ItemPreimage(ToItem(d, now)) == I64Bytes(0) + DefinitionPreimage(d)
  {
    if d.worldId.None? {
      ToItemPreimageWithoutWorld(d, now);
    }
  }

  lemma ToItemPreimageWithoutWorld(d: ItemDefinition, now: Timestamp)
    requires d.worldId.None?
    ensures ItemPreimage(ToItem(d, now)) == I64Bytes(0) + DefinitionPreimage(d)
  {
    var cat := I64Bytes(d.categoryId);
    assert [] + cat == cat;
    ConcatAfter(I64Bytes(0), cat, Utf8(d.code), Utf8(d.itemType), Utf8(d.name),
                Utf8(d.description), I64Bytes(d.basePrice));
  }

  /** Regrouping a seven-part concatenation behind its first part. */
  lemma ConcatAfter(a: seq<byte>, b: seq<byte>, c: seq<byte>, d: seq<byte>,
                    e: seq<byte>, f: seq<byte>, g: seq<byte>)
    ensures a + b + c + d + e + f + g == a + (b + c + d + e + f + g)
  {
  }

  // ---------------------------------------------------------------------------
  // `create_item`
  // ---------------------------------------------------------------------------

  /** The item `create_item` stores: the stored item's id (0 when there is
      none), the world's id, the creation time given or `now`, and the
      definition's data. */
  function DataItem(d: ItemDefinition, world: World, found: Option<Item>, now: Timestamp): (i: Item)
    ensures i.id == (if found.Some? then found.value.id else 0)
    ensures i.worldId == world.id
    ensures i == ToItem(d.(worldId := Some(world.id)), now).(id := i.id)
  {
    Item(if found.Some? then found.value.id else 0, world.id, d.code, d.itemType, d.categoryId,
         d.name, d.description, d.itemProperties, d.basePrice, d.createdAt.GetOr(now), now)
  }

  /** `create_item` after its lookups. `connected` says whether the pool gave
      a connection, `world` is the world found by code, `found` the item found
      by world id and code, and `store` the result of `create_or_update`. */
  function CreateItem(d: ItemDefinition, connected: bool, world: Option<World>, found: Option<Item>,
                      now: Timestamp, hash: seq<byte> -> seq<byte>,
                      store: Item -> Result<Item, string>): (r: ApiResponse<Item>)
    ensures !Acceptable(d) ==> r == BadRequest(ValidationErrors(d))
    ensures Acceptable(d) && !connected ==> r == Error("Failed to get connection")
    ensures Acceptable(d) && connected && world.None? ==> r == NotFound("World not found")
    ensures r.NotChanged? <==>
      Acceptable(d) && connected && world.Some? && found.Some?
      && hash(ItemPreimage(DataItem(d, world.value, found, now))) == hash(ItemPreimage(found.value))
    ensures r.JsonData? || r.Created? ==>
      Acceptable(d) && connected && world.Some?
      && store(DataItem(d, world.value, found, now)) == Ok(r.data)
  {
    if !Acceptable(d) then BadRequest(ValidationErrors(d))
    else if !connected then Error("Failed to get connection")
    else if world.None? then NotFound("World not found")
    else
      var data := DataItem(d, world.value, found, now);
      if found.Some? && hash(ItemPreimage(data)) == hash(ItemPreimage(found.value)) then NotChanged
      else match store(data)
        case Ok(item) => if data.id == 0 then Created(item) else JsonData(item)
        case Err(e) => Error("Failed to create item: " + e)
  }

  /** The item stored under the same world and code with the same data
      (only its id, timestamps or properties may differ) is not written
      again. */
  lemma UnchangedItemIsNotStored(d: ItemDefinition, w: World, found: Item, now: Timestamp,
                                 hash: seq<byte> -> seq<byte>, store: Item -> Result<Item, string>)
    requires Acceptable(d)
    requires found.worldId == w.id && found.categoryId == d.categoryId && found.code == d.code
    requires found.itemType == d.itemType && found.name == d.name
    requires found.description == d.description && found.basePrice == d.basePrice
    ensures CreateItem(d, true, Some(w), Some(found), now, hash, store) == NotChanged
  {
    var data := DataItem(d, w, Some(found), now);
    assert ItemPreimage(data) == ItemPreimage(found);
  }

  /** Past validation, connection and world lookup, the stored item is
      reported as created exactly when there was no stored item (or its id
      was 0), and as updated when there was one with another id; an equal
      signature stops both. */
  lemma CreatedIffNew(d: ItemDefinition, w: World, found: Option<Item>, now: Timestamp,
                      hash: seq<byte> -> seq<byte>, store: Item -> Result<Item, string>)
    requires Acceptable(d)
    requires found.Some? ==>
      hash(ItemPreimage(DataItem(d, w, found, now))) != hash(ItemPreimage(found.value))
    requires store(DataItem(d, w, found, now)).Ok?
    ensures var r := CreateItem(d, true, Some(w), found, now, hash, store);
      && (r.Created? <==> found.None? || found.value.id == 0)
      && (r.JsonData? <==> found.Some? && found.value.id != 0)
      && (r.Created? || r.JsonData?)
  {
  }

  /** A failed store is reported with the store's message. */
  lemma StoreFailureReported(d: ItemDefinition, w: World, found: Option<Item>, now: Timestamp,
                             hash: seq<byte> -> seq<byte>, store: Item -> Result<Item, string>)
    requires Acceptable(d)
    requires found.Some? ==>
      hash(ItemPreimage(DataItem(d, w, found, now))) != hash(ItemPreimage(found.value))
    requires store(DataItem(d, w, found, now)).Err?
    ensures CreateItem(d, true, Some(w), found, now, hash, store)
            == Error("Failed to create item: " + store(DataItem(d, w, found, now)).error)
  {
  }

  /** Whether the request is answered NotChanged does not depend on the
      clock: the signature leaves timestamps out. */
  lemma NotChangedIgnoresClock(d: ItemDefinition, connected: bool, world: Option<World>,
                               found: Option<Item>, now1: Timestamp, now2: Timestamp,
                               hash: seq<byte> -> seq<byte>, store: Item -> Result<Item, string>)
    ensures CreateItem(d, connected, world, found, now1, hash, store).NotChanged?
            <==> CreateItem(d, connected, world, found, now2, hash, store).NotChanged?
  {
    if Acceptable(d) && connected && world.Some? {
      DataItemSignsAlike(d, world.value, found, now1, now2);
    }
  }

  lemma DataItemSignsAlike(d: ItemDefinition, world: World, found: Option<Item>,
                           now1: Timestamp, now2: Timestamp)
    ensures ItemPreimage(DataItem(d, world, found, now1)) == ItemPreimage(DataItem(d, world, found, now2))
  {
    var a, b := DataItem(d, world, found, now1), DataItem(d, world, found, now2);
    assert a == b.(createdAt := a.createdAt, updatedAt := a.updatedAt);
  }
}
