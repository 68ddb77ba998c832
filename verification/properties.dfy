/** What the handlers promise, and fail to promise, across requests. */
module Properties {
  import opened Json
  import opened Validator
  import opened Store

  /** Every entry's id is its position plus one, as in the seed data. */
  predicate IdsMatchPositions(items: seq<MenuItem>) {
    forall i | 0 <= i < |items| :: items[i].id == i + 1
  }

  predicate UniqueIds(items: seq<MenuItem>) {
    forall i, j | 0 <= i < j < |items| :: items[i].id != items[j].id
  }

  /** An entry whose fields all satisfy the rules of the validation chain, with a
      numeric price. */
  predicate Conforms(e: MenuItem) {
    && NameOk(Some(e.name))
    && DescriptionOk(Some(e.description))
    && e.price.Num? && e.price.n > 0.0
    && CategoryOk(Some(e.category))
    && IngredientsOk(Some(e.ingredients))
    && AvailableOk(Some(e.available))
  }

  // ---- the validation chain and the guards ----

  /** A non-positive numeric price is reported by the chain whatever the other fields hold. */
  lemma NonPositivePriceRejected(body: Body, n: real)
    requires Lookup(body, "price") == Some(Num(n)) && n <= 0.0
    ensures PriceRule in ValidateItems(body)
  {
    assert !Holds(PriceRule, body);
  }

  /** "dessert", the spelling the seed data and the error message use, is not an accepted category. */
  lemma DessertRejected(items: seq<MenuItem>, body: Body)
    requires Lookup(body, "category") == Some(Str("dessert"))
    ensures CategoryRule in ValidateItems(body)
    ensures CreateItem(items, body) == Step(Errors(ValidateItems(body)), items)
  {
    assert "dessert" != "desert";
    assert !Holds(CategoryRule, body);
  }

  /** Once the chain accepts, the POST guard's name check can no longer fail, and its
      price check fails exactly when the price was given as a numeric string. */
  lemma PostGuardAfterValidation(body: Body)
    requires ValidateItems(body) == []
    ensures PostTypeError(body) != Some(NameNotString)
    ensures PostTypeError(body) == Some(PriceNotNumber) <==> Lookup(body, "price").value.Str?
  {
    assert NameOk(Lookup(body, "name")) && PriceOk(Lookup(body, "price"));
  }

  /** How the price rule reads strings: a decimal numeral above zero passes; zero
      written with a point and an exponent form do not. */
  lemma PriceTextCases()
    ensures PriceOk(Some(Str("5.5"))) && PriceOk(Some(Str("12")))
    ensures !PriceOk(Some(Str("0.0"))) && !PriceOk(Some(Str("1e3")))
  {
    PointFiveText();
    TwelveText();
    PointZeroText();
    DecimalTextRefusesOtherChars("1e3", 1);
  }

  lemma PointFiveText()
    ensures DecimalText("5.5").Some? && DecimalText("5.5").value >= 5.0
  {
    assert "5.5" == "5" + "." + "5";
    assert DigitsValue("5") == 5;
    DecimalTextWithPoint("5", "5");
  }

  lemma TwelveText()
    ensures DecimalText("12") == Some(12.0)
  {
    assert AllDigits("12");
    assert DigitsValue("12") == 12;
  }

  lemma PointZeroText()
    ensures DecimalText("0.0") == Some(0.0)
  {
    assert "0.0" == "0" + "." + "0";
    assert DigitsValue("0") == 0;
    DecimalTextWithPoint("0", "0");
  }

  /** POST creates an entry exactly when every rule holds and the price is a JSON number. */
  lemma CreateAcceptsExactly(items: seq<MenuItem>, body: Body)
    ensures CreateItem(items, body).response.Ok? <==>
      ValidateItems(body) == [] && Lookup(body, "price").Some? && Lookup(body, "price").value.Num?
  {
    if ValidateItems(body) == [] {
      PostGuardAfterValidation(body);
    }
  }

  /** Once the chain accepts, of the PUT type checks only the price check can fail. */
  lemma PutTypeCheckAfterValidation(body: Body)
    requires ValidateItems(body) == []
    ensures PutTypeError(body) == None || PutTypeError(body) == Some(PriceNotNumber)
    ensures PutTypeError(body) == Some(PriceNotNumber) <==> Lookup(body, "price").value.Str?
  {
    assert NameOk(Lookup(body, "name")) && PriceOk(Lookup(body, "price"))
      && IngredientsOk(Lookup(body, "ingredients"));
  }

  // ---- create ----

  /** A created entry holds the body's own values: the handler's fallbacks for
      description, category and ingredients never apply, and `available` is the
      truthiness of the given value, or true when there is none. */
  lemma CreatedEntryEchoesBody(items: seq<MenuItem>, body: Body)
    requires CreateItem(items, body).response.Ok?
    ensures CreateItem(items, body).response.item ==
      MenuItem(|items| + 1,
               Lookup(body, "name").value, Lookup(body, "description").value,
               Lookup(body, "price").value, Lookup(body, "category").value,
               Lookup(body, "ingredients").value,
               if Lookup(body, "available").None? then Bool(true)
               else Bool(Truthy(Lookup(body, "available").value)))
  {
    assert ValidateItems(body) == [];
    var category := Lookup(body, "category").value;
    assert category.Str? && category.s in Categories;
    assert category.s != "";
  }

  lemma CreatedEntryConforms(items: seq<MenuItem>, body: Body)
    requires CreateItem(items, body).response.Ok?
    ensures Conforms(CreateItem(items, body).response.item)
  {
    CreatedEntryEchoesBody(items, body);
    CreateAcceptsExactly(items, body);
  }

  /** The scenario of a new taco: the next id and `available` defaulted to true. */
  function TacoBody(): Body {
    [ Field("name", Str("Taco")),
      Field("description", Str("Spicy beef taco")),
      Field("price", Num(5.5)),
      Field("category", Str("entree")),
      Field("ingredients", Arr([Str("beef"), Str("tortilla")])) ]
  }

  lemma TacoAccepted()
    ensures ValidateItems(TacoBody()) == []
    ensures Lookup(TacoBody(), "price") == Some(Num(5.5))
    ensures Lookup(TacoBody(), "available") == None
  {
    TacoNameAndDescription();
    TacoPriceAndCategory();
    TacoIngredients();
    var body := TacoBody();
    assert NameOk(Lookup(body, "name")) && DescriptionOk(Lookup(body, "description"));
    assert "entree" in Categories;
    assert PriceOk(Lookup(body, "price")) && CategoryOk(Lookup(body, "category"));
    assert IngredientsOk(Lookup(body, "ingredients")) && AvailableOk(Lookup(body, "available"));
  }

  lemma TacoNameAndDescription()
    ensures Lookup(TacoBody(), "name") == Some(Str("Taco"))
    ensures Lookup(TacoBody(), "description") == Some(Str("Spicy beef taco"))
  {
    LookupDistinct(TacoBody(), 0);
    LookupDistinct(TacoBody(), 1);
  }

  lemma TacoPriceAndCategory()
    ensures Lookup(TacoBody(), "price") == Some(Num(5.5))
    ensures Lookup(TacoBody(), "category") == Some(Str("entree"))
  {
    LookupDistinct(TacoBody(), 2);
    LookupDistinct(TacoBody(), 3);
  }

  lemma TacoIngredients()
    ensures Lookup(TacoBody(), "ingredients") == Some(Arr([Str("beef"), Str("tortilla")]))
    ensures Lookup(TacoBody(), "available") == None
  {
    LookupDistinct(TacoBody(), 4);
  }

  lemma CreateTaco()
    ensures CreateItem(Seed(), TacoBody()).response ==
      Ok(MenuItem(7, Str("Taco"), Str("Spicy beef taco"), Num(5.5), Str("entree"),
                  Arr([Str("beef"), Str("tortilla")]), Bool(true)))
  {
    assert |Seed()| == 6;
    CreateTacoOn(Seed());
  }

  /** On any collection the taco gets the next id and `available` true. */
  lemma CreateTacoOn(items: seq<MenuItem>)
    ensures CreateItem(items, TacoBody()).response ==
      Ok(MenuItem(|items| + 1, Str("Taco"), Str("Spicy beef taco"), Num(5.5), Str("entree"),
                  Arr([Str("beef"), Str("tortilla")]), Bool(true)))
  {
    TacoAccepted();
    TacoNameAndDescription();
    TacoPriceAndCategory();
    TacoIngredients();
    CreateAcceptsExactly(items, TacoBody());
    CreatedEntryEchoesBody(items, TacoBody());
  }

  // ---- ids ----

  lemma SeedIdsMatchPositions()
    ensures IdsMatchPositions(Seed())
  {
    var s := Seed();
    assert s[0].id == 1;
    assert s[1].id == 2;
    assert s[2].id == 3;
    assert s[3].id == 4;
    assert s[4].id == 5;
    assert s[5].id == 6;
  }

  /** Seed entry 4 is stored with a category the chain would refuse. */
  lemma SeedHoldsUnacceptedCategory()
    ensures LavaCake().category == Str("dessert")
    ensures !CategoryOk(Some(LavaCake().category))
    ensures !Conforms(LavaCake())
  {
    var e := LavaCake();
    assert e.category == Str("dessert");
    assert |"dessert"| == 7;
    assert forall c | c in Categories :: |c| != 7;
  }

  lemma IdsMatchPositionsAreUnique(items: seq<MenuItem>)
    requires IdsMatchPositions(items)
    ensures UniqueIds(items)
  {
  }

  /** In a run without deletions a new id is above every id already present. */
  lemma CreateKeepsIdsMatchingPositions(items: seq<MenuItem>, body: Body)
    requires IdsMatchPositions(items)
    ensures IdsMatchPositions(CreateItem(items, body).items)
    ensures CreateItem(items, body).response.Ok? ==>
      forall i | 0 <= i < |items| :: items[i].id < CreateItem(items, body).response.item.id
  {
  }

  lemma UpdateKeepsIds(items: seq<MenuItem>, id: int, body: Body)
    ensures |UpdateItem(items, id, body).items| == |items|
    ensures forall i | 0 <= i < |items| :: UpdateItem(items, id, body).items[i].id == items[i].id
  {
  }

  /** Creating and then getting the new id returns the created entry, while ids match positions. */
  lemma FindAfterCreate(items: seq<MenuItem>, body: Body)
    requires IdsMatchPositions(items)
    requires CreateItem(items, body).response.Ok?
    ensures FindItem(CreateItem(items, body).items, |items| + 1) == CreateItem(items, body).response
  {
    var after := CreateItem(items, body).items;
    var k := IndexOf(after, |items| + 1);
    assert after[|items|].id == |items| + 1;
    assert k == |items|;
  }

  /** After the first entry is deleted, the length-plus-one rule hands out the id of
      the last entry again: GET of that id finds the older entry, and it takes two
      DELETEs of the id to remove both. */
  lemma DeleteThenCreateDuplicatesId(items: seq<MenuItem>, body: Body)
    requires IdsMatchPositions(items) && |items| >= 2
    requires ValidateItems(body) == [] && Lookup(body, "price").Some? && Lookup(body, "price").value.Num?
    ensures var created := CreateItem(DeleteItem(items, 1).items, body);
            && created.response.Ok?
            && created.response.item.id == |items|
            && created.items[|items| - 2] == items[|items| - 1]
            && !UniqueIds(created.items)
            && FindItem(created.items, |items|) == Ok(items[|items| - 1])
            && DeleteItem(created.items, |items|).response == Ok(items[|items| - 1])
            && DeleteItem(DeleteItem(created.items, |items|).items, |items|).response == created.response
  {
    assert IndexOf(items, 1) == 0;
    var rest := DeleteItem(items, 1).items;
    assert rest == items[1..];
    CreateAcceptsExactly(rest, body);
    var created := CreateItem(rest, body);
    DuplicateIdAfterShift(rest, created.response.item);
  }

  /** The collection a create leaves after the first of positional ids was deleted:
      every id one above its position, and a new entry carrying the last id again. */
  lemma DuplicateIdAfterShift(rest: seq<MenuItem>, e: MenuItem)
    requires |rest| >= 1 && e.id == |rest| + 1
    requires forall i | 0 <= i < |rest| :: rest[i].id == i + 2
    ensures !UniqueIds(rest + [e])
    ensures FindItem(rest + [e], e.id) == Ok(rest[|rest| - 1])
    ensures DeleteItem(rest + [e], e.id) == Step(Ok(rest[|rest| - 1]), rest[..|rest| - 1] + [e])
    ensures DeleteItem(rest[..|rest| - 1] + [e], e.id).response == Ok(e)
  {
    var s := rest + [e];
    var n := |rest|;
    assert s[n - 1].id == e.id && s[n].id == e.id;
    assert IndexOf(s, e.id) == n - 1;
    assert s[..n - 1] + s[n..] == rest[..n - 1] + [e];
    var once := rest[..n - 1] + [e];
    assert forall i | 0 <= i < n - 1 :: once[i] == rest[i];
    assert once[n - 1] == e;
  }

  /** The same, starting from the seed data with the taco body. */
  lemma SeedDeleteThenCreateDuplicatesId()
    ensures var created := CreateItem(DeleteItem(Seed(), 1).items, TacoBody());
            && created.response.Ok? && created.response.item.id == 6
            && FindItem(created.items, 6) == Ok(FishAndChips())
  {
    SeedIdsMatchPositions();
    TacoAccepted();
    DeleteThenCreateDuplicatesId(Seed(), TacoBody());
  }

  // ---- update ----

  lemma MergeEmptyBody(item: MenuItem)
    ensures Merge(item, []) == item
  {
  }

  lemma MergeIdempotent(item: MenuItem, body: Body)
    ensures Merge(Merge(item, body), body) == Merge(item, body)
  {
  }

  /** Replaying a PUT gives the same response and the same collection. */
  lemma UpdateIdempotent(items: seq<MenuItem>, id: int, body: Body)
    ensures var once := UpdateItem(items, id, body);
            UpdateItem(once.items, id, body) == once
  {
    var once := UpdateItem(items, id, body);
    if once.response.Ok? {
      var k := IndexOf(items, id);
      var e := Merge(items[k], body);
      assert once.items == items[k := e];
      IndexOfAfterReplace(items, k, e);
      MergeIdempotent(items[k], body);
      UpdateAccepted(once.items, id, body);
    }
  }

  /** A PUT that passes every check replaces the found entry by the merge. */
  lemma UpdateAccepted(items: seq<MenuItem>, id: int, body: Body)
    requires ValidateItems(body) == [] && 0 <= IndexOf(items, id)
    requires FirstDisallowed(body).None? && PutTypeError(body).None?
    ensures var k := IndexOf(items, id);
            UpdateItem(items, id, body) == Step(Ok(Merge(items[k], body)), items[k := Merge(items[k], body)])
  {
  }

  /** Replacing the first entry with an id by one with the same id keeps it first. */
  lemma IndexOfAfterReplace(items: seq<MenuItem>, k: int, e: MenuItem)
    requires 0 <= k < |items| && e.id == items[k].id && IndexOf(items, e.id) == k
    ensures IndexOf(items[k := e], e.id) == k
  {
    var after := items[k := e];
    assert after[k].id == e.id;
    assert forall i | 0 <= i < k :: after[i] == items[i];
  }

  /** A PUT whose body is a truly partial update is refused by the chain: the empty
      body leaves the entry as it was only because it is rejected. */
  lemma EmptyUpdateRejected(items: seq<MenuItem>, id: int)
    ensures UpdateItem(items, id, []) ==
      Step(Errors([NameRule, DescriptionRule, PriceRule, CategoryRule, IngredientsRule]), items)
  {
    NoFieldKeysRejected(items, id, []);
  }

  /** `{bogusField: 1}` is refused by the chain before the allow-list is consulted. */
  lemma BogusFieldFailsChainFirst(items: seq<MenuItem>, id: int)
    ensures UpdateItem(items, id, [Field("bogusField", Num(1.0))]) ==
      Step(Errors([NameRule, DescriptionRule, PriceRule, CategoryRule, IngredientsRule]), items)
  {
    NoFieldKeysRejected(items, id, [Field("bogusField", Num(1.0))]);
  }

  /** A PUT body that carries none of the entry's keys is refused by the five
      required rules, whatever else it holds, before the allow-list is consulted. */
  lemma NoFieldKeysRejected(items: seq<MenuItem>, id: int, body: Body)
    requires forall i | 0 <= i < |body| :: body[i].key !in AllowedKeys
    ensures UpdateItem(items, id, body) ==
      Step(Errors([NameRule, DescriptionRule, PriceRule, CategoryRule, IngredientsRule]), items)
  {
    AllowedKeyAbsent(body, "name");
    AllowedKeyAbsent(body, "description");
    AllowedKeyAbsent(body, "price");
    AllowedKeyAbsent(body, "category");
    AllowedKeyAbsent(body, "ingredients");
    AllowedKeyAbsent(body, "available");
    NoFieldsFailRequiredRules(body);
  }

  /** Without any of the entry's keys, exactly the five required rules fail. */
  lemma NoFieldsFailRequiredRules(body: Body)
    requires Lookup(body, "name") == None && Lookup(body, "description") == None
    requires Lookup(body, "price") == None && Lookup(body, "category") == None
    requires Lookup(body, "ingredients") == None && Lookup(body, "available") == None
    ensures ValidateItems(body) == [NameRule, DescriptionRule, PriceRule, CategoryRule, IngredientsRule]
  {
    assert Check(NameRule, body) == [NameRule] && Check(DescriptionRule, body) == [DescriptionRule];
    assert Check(PriceRule, body) == [PriceRule] && Check(CategoryRule, body) == [CategoryRule];
    assert Check(IngredientsRule, body) == [IngredientsRule] && Check(AvailableRule, body) == [];
  }

  lemma AllowedKeyAbsent(body: Body, key: string)
    requires key in AllowedKeys
    requires forall i | 0 <= i < |body| :: body[i].key !in AllowedKeys
    ensures Lookup(body, key) == None
  {
  }

  /** A PUT carrying only a price is refused by the chain and changes nothing; a
      non-positive price is among the reported rules. */
  lemma PriceOnlyUpdateRejected(items: seq<MenuItem>, id: int, n: real)
    ensures var r := UpdateItem(items, id, [Field("price", Num(n))]);
            && r.items == items
            && r.response.Errors?
            && NameRule in r.response.rules
            && (n <= 0.0 <==> PriceRule in r.response.rules)
  {
    var body := [Field("price", Num(n))];
    assert Lookup(body, "name") == None;
    assert Lookup(body, "price") == Some(Num(n));
    assert !Holds(NameRule, body);
    assert Holds(PriceRule, body) <==> n > 0.0;
  }

  /** An unknown key on an otherwise valid body for a present id is reported by name. */
  lemma UnknownKeyRejected(items: seq<MenuItem>, id: int, body: Body, i: nat)
    requires ValidateItems(body) == [] && IndexOf(items, id) >= 0
    requires i < |body| && body[i].key !in AllowedKeys
    ensures UpdateItem(items, id, body).response.InvalidField?
    ensures UpdateItem(items, id, body).items == items
  {
  }

  /** An updated entry holds every field the body gives, as given; only `id`, and
      `available` when the body has none, come from the entry it replaces. */
  lemma UpdatedEntryEchoesBody(items: seq<MenuItem>, id: int, body: Body)
    requires UpdateItem(items, id, body).response.Ok?
    ensures var prior := items[IndexOf(items, id)];
      UpdateItem(items, id, body).response.item ==
      MenuItem(prior.id,
               Lookup(body, "name").value, Lookup(body, "description").value,
               Lookup(body, "price").value, Lookup(body, "category").value,
               Lookup(body, "ingredients").value,
               if Lookup(body, "available").None? then prior.available
               else Lookup(body, "available").value)
  {
    assert ValidateItems(body) == [];
  }

  /** `available: "false"` passes the chain, yet POST stores it as true (its
      truthiness) while PUT stores the string itself. */
  lemma AvailableTextStoredDifferently(items: seq<MenuItem>, id: int, body: Body)
    requires Lookup(body, "available") == Some(Str("false"))
    ensures Holds(AvailableRule, body)
    ensures CreateItem(items, body).response.Ok? ==>
      CreateItem(items, body).response.item.available == Bool(true)
    ensures UpdateItem(items, id, body).response.Ok? ==>
      UpdateItem(items, id, body).response.item.available == Str("false")
  {
  }

  /** An updated entry conforms to the rules when the `available` of the entry it
      replaces passes the chain's rule. */
  lemma UpdatedEntryConforms(items: seq<MenuItem>, id: int, body: Body)
    requires UpdateItem(items, id, body).response.Ok?
    requires AvailableOk(Some(items[IndexOf(items, id)].available))
    ensures Conforms(UpdateItem(items, id, body).response.item)
  {
    assert ValidateItems(body) == [];
    assert PutTypeError(body).None?;
  }

  // ---- delete ----

  /** With unique ids, a deleted id is gone: GET and a second DELETE both answer not found. */
  lemma DeleteIsTerminal(items: seq<MenuItem>, id: int)
    requires UniqueIds(items)
    requires DeleteItem(items, id).response.Ok?
    ensures FindItem(DeleteItem(items, id).items, id) == NotFound
    ensures DeleteItem(DeleteItem(items, id).items, id) == Step(NotFound, DeleteItem(items, id).items)
  {
    var k := IndexOf(items, id);
    var after := DeleteItem(items, id).items;
    assert after == items[..k] + items[k + 1..];
    forall i | 0 <= i < |after|
      ensures after[i].id != id
    {
      if i < k {
        assert after[i] == items[i];
      } else {
        assert after[i] == items[i + 1];
      }
    }
  }
}
