/** The menu collection and what each route handler does to it, as functions from
    the collection before a request to the response and the collection after it. */
module Store {
  import opened Json
  import opened Validator

  /** A stored menu entry. Every field but `id` keeps the JSON value it was given,
      since an update copies the body's values in unchanged. */
  datatype MenuItem = MenuItem(
    id: int,
    name: Value,
    description: Value,
    price: Value,
    category: Value,
    ingredients: Value,
    available: Value)

  /** What a handler answers: the entry (created, found, updated or removed), the
      validation errors, not found, the first key outside the allow-list, or the
      first failing type check. */
  datatype Response =
    | Ok(item: MenuItem)
    | Errors(rules: seq<Rule>)
    | NotFound
    | InvalidField(key: string)
    | WrongType(check: TypeCheck)

  /** A handler's response together with the collection it leaves behind. */
  datatype Step = Step(response: Response, items: seq<MenuItem>)

  function Entry(id: int, name: string, description: string, price: real, category: string,
                 ingredients: seq<Value>, available: bool): MenuItem
  {
    MenuItem(id, Str(name), Str(description), Num(price), Str(category), Arr(ingredients), Bool(available))
  }

  /** The six entries the service starts with. */
  function Seed(): seq<MenuItem> {
    [ClassicBurger(), CaesarSalad(), MozzarellaSticks(), LavaCake(), Lemonade(), FishAndChips()]
  }

  function ClassicBurger(): MenuItem {
    Entry(1, "Classic Burger", "Beef patty with lettuce, tomato, and cheese on a sesame seed bun", 12.99,
          "entree", [Str("beef"), Str("lettuce"), Str("tomato"), Str("cheese"), Str("bun")], true)
  }

  function CaesarSalad(): MenuItem {
    Entry(2, "Chicken Caesar Salad", "Grilled chicken breast over romaine lettuce with parmesan and croutons", 11.50,
          "entree", [Str("chicken"), Str("romaine lettuce"), Str("parmesan cheese"), Str("croutons"), Str("caesar dressing")], true)
  }

  function MozzarellaSticks(): MenuItem {
    Entry(3, "Mozzarella Sticks", "Crispy breaded mozzarella served with marinara sauce", 8.99,
          "appetizer", [Str("mozzarella cheese"), Str("breadcrumbs"), Str("marinara sauce")], true)
  }

  function LavaCake(): MenuItem {
    Entry(4, "Chocolate Lava Cake", "Warm chocolate cake with molten center, served with vanilla ice cream", 7.99,
          "dessert", [Str("chocolate"), Str("flour"), Str("eggs"), Str("butter"), Str("vanilla ice cream")], true)
  }

  function Lemonade(): MenuItem {
    Entry(5, "Fresh Lemonade", "House-made lemonade with fresh lemons and mint", 3.99,
          "beverage", [Str("lemons"), Str("sugar"), Str("water"), Str("mint")], true)
  }

  function FishAndChips(): MenuItem {
    Entry(6, "Fish and Chips", "Beer-battered cod with seasoned fries and coleslaw", 14.99,
          "entree", [Str("cod"), Str("beer batter"), Str("potatoes"), Str("coleslaw"), Str("tartar sauce")], false)
  }

  /** Position of the first entry with the given id, or -1 (`findIndex`). */
  function IndexOf(items: seq<MenuItem>, id: int): (k: int)
    ensures -1 <= k < |items|
    ensures k == -1 <==> forall i | 0 <= i < |items| :: items[i].id != id
    ensures 0 <= k ==> items[k].id == id && forall i | 0 <= i < k :: items[i].id != id
  {
    if items == [] then -1
    else if items[0].id == id then 0
    else
      var k := IndexOf(items[1..], id);
      if k == -1 then -1 else k + 1
  }

  /** GET of one entry: the first entry with that id (`find`), or not found. */
  function FindItem(items: seq<MenuItem>, id: int): (r: Response)
    ensures r.Ok? || r.NotFound?
    ensures r.NotFound? <==> forall i | 0 <= i < |items| :: items[i].id != id
    ensures r.Ok? ==>
      exists k | 0 <= k < |items| ::
        items[k] == r.item && r.item.id == id && forall j | 0 <= j < k :: items[j].id != id
  {
    var k := IndexOf(items, id);
    if k < 0 then NotFound else Ok(items[k])
  }

  /** The entry a POST builds from its body, with the handler's defaults. */
  function NewItem(id: int, body: Body): (e: MenuItem)
    requires PostTypeError(body).None?
    ensures e.id == id
    ensures e.name == Lookup(body, "name").value && e.price == Lookup(body, "price").value
    ensures var d := Lookup(body, "description");
      e.description == if d.Some? && Truthy(d.value) then d.value else Str("")
    ensures var c := Lookup(body, "category");
      e.category == if c.Some? && Truthy(c.value) then c.value else Str("")
    ensures var g := Lookup(body, "ingredients");
      e.ingredients == if g.Some? && g.value.Arr? then g.value else Arr([])
    ensures e.available.Bool? && e.ingredients.Arr?
    ensures Lookup(body, "available").None? ==> e.available == Bool(true)
    ensures Lookup(body, "available").Some? ==> e.available == Bool(Truthy(Lookup(body, "available").value))
  {
    var description, category := Lookup(body, "description"), Lookup(body, "category");
    var ingredients, available := Lookup(body, "ingredients"), Lookup(body, "available");
    MenuItem(
      id,
      Lookup(body, "name").value,
      if description.Some? && Truthy(description.value) then description.value else Str(""),
      Lookup(body, "price").value,
      if category.Some? && Truthy(category.value) then category.value else Str(""),
      if ingredients.Some? && ingredients.value.Arr? then ingredients.value else Arr([]),
      if available.None? then Bool(true) else Bool(Truthy(available.value)))
  }

  /** The value a merge leaves in one field: the body's when it has the key, else the old one. */
  function Pick(body: Body, key: string, current: Value): Value {
    match Lookup(body, key)
    case Some(v) => v
    case None => current
  }

  /** The shallow merge `{ ...item, ...body }` over the keys an entry has. */
  function Merge(item: MenuItem, body: Body): (r: MenuItem)
    ensures r.id == item.id
    ensures Lookup(body, "name").Some? ==> r.name == Lookup(body, "name").value
    ensures Lookup(body, "name").None? ==> r.name == item.name
    ensures Lookup(body, "description").Some? ==> r.description == Lookup(body, "description").value
    ensures Lookup(body, "description").None? ==> r.description == item.description
    ensures Lookup(body, "price").Some? ==> r.price == Lookup(body, "price").value
    ensures Lookup(body, "price").None? ==> r.price == item.price
    ensures Lookup(body, "category").Some? ==> r.category == Lookup(body, "category").value
    ensures Lookup(body, "category").None? ==> r.category == item.category
    ensures Lookup(body, "ingredients").Some? ==> r.ingredients == Lookup(body, "ingredients").value
    ensures Lookup(body, "ingredients").None? ==> r.ingredients == item.ingredients
    ensures Lookup(body, "available").Some? ==> r.available == Lookup(body, "available").value
    ensures Lookup(body, "available").None? ==> r.available == item.available
  {
    item.(name := Pick(body, "name", item.name),
          description := Pick(body, "description", item.description),
          price := Pick(body, "price", item.price),
          category := Pick(body, "category", item.category),
          ingredients := Pick(body, "ingredients", item.ingredients),
          available := Pick(body, "available", item.available))
  }

  /** POST: run the chain, then the handler's guard, then append an entry whose id
      is the collection's length plus one. */
  function CreateItem(items: seq<MenuItem>, body: Body): (r: Step)
    ensures r.response.Ok? || r.response.Errors? || r.response.WrongType?
    ensures r.response.Errors? <==> ValidateItems(body) != []
    ensures r.response.Errors? ==> r.response.rules == ValidateItems(body)
    ensures r.response.WrongType? ==>
      ValidateItems(body) == [] && PostTypeError(body) == Some(r.response.check)
    ensures !r.response.Ok? ==> r.items == items
    ensures r.response.Ok? ==>
      && ValidateItems(body) == [] && PostTypeError(body).None?
      && r.response.item == NewItem(|items| + 1, body)
      && r.items == items + [r.response.item] && r.response.item.id == |items| + 1
  {
    var errs := ValidateItems(body);
    if errs != [] then Step(Errors(errs), items)
    else match PostTypeError(body)
      case Some(c) => Step(WrongType(c), items)
      case None =>
        var e := NewItem(|items| + 1, body);
        Step(Ok(e), items + [e])
  }

  /** PUT: run the chain, then look the id up, then the allow-list, then the
      handler's type checks, and only then merge the body into the found entry. */
  function UpdateItem(items: seq<MenuItem>, id: int, body: Body): (r: Step)
    ensures !r.response.Ok? ==> r.items == items
    ensures r.response.Errors? <==> ValidateItems(body) != []
    ensures r.response.Errors? ==> r.response.rules == ValidateItems(body)
    ensures r.response.NotFound? <==>
      ValidateItems(body) == [] && forall i | 0 <= i < |items| :: items[i].id != id
    ensures r.response.InvalidField? ==>
      && ValidateItems(body) == [] && IndexOf(items, id) >= 0
      && FirstDisallowed(body) == Some(r.response.key) && r.response.key !in AllowedKeys
    ensures r.response.WrongType? ==>
      && ValidateItems(body) == [] && IndexOf(items, id) >= 0 && FirstDisallowed(body).None?
      && PutTypeError(body) == Some(r.response.check)
    ensures r.response.Ok? ==>
      && ValidateItems(body) == [] && FirstDisallowed(body).None? && PutTypeError(body).None?
      && 0 <= IndexOf(items, id)
      && r.response.item == Merge(items[IndexOf(items, id)], body)
      && r.response.item.id == id
      && r.items == items[IndexOf(items, id) := r.response.item]
  {
    var errs := ValidateItems(body);
    if errs != [] then Step(Errors(errs), items)
    else
      var k := IndexOf(items, id);
      if k < 0 then Step(NotFound, items)
      else match FirstDisallowed(body)
        case Some(key) => Step(InvalidField(key), items)
        case None =>
          match PutTypeError(body)
          case Some(c) => Step(WrongType(c), items)
          case None =>
            var e := Merge(items[k], body);
            Step(Ok(e), items[k := e])
  }

  /** DELETE: remove the first entry with that id (`splice`) and answer with it. */
  function DeleteItem(items: seq<MenuItem>, id: int): (r: Step)
    ensures r.response.Ok? || r.response.NotFound?
    ensures r.response.NotFound? <==> forall i | 0 <= i < |items| :: items[i].id != id
    ensures r.response.NotFound? ==> r.items == items
    ensures r.response.Ok? ==>
      && |r.items| == |items| - 1
      && r.response.item.id == id
      && exists k | 0 <= k < |items| ::
           && items[k] == r.response.item
           && (forall j | 0 <= j < k :: items[j].id != id)
           && r.items == items[..k] + items[k + 1..]
  {
    var k := IndexOf(items, id);
    if k < 0 then Step(NotFound, items)
    else Step(Ok(items[k]), items[..k] + items[k + 1..])
  }
}
