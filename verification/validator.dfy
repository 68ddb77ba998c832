/** The field rules of the `validateItems` chain, the error handler that turns any
    violation into a rejection, and the extra first-failure checks of the POST and
    PUT handlers. */
module Validator {
  import opened Json

  /** One rule of the chain, named after the field it checks. */
  datatype Rule = NameRule | DescriptionRule | PriceRule | CategoryRule | IngredientsRule | AvailableRule

  /** The categories the chain accepts, spelled as the chain spells them ("desert"). */
  const Categories: seq<string> := ["appetizer", "entree", "desert", "beverage"]

  /** The keys a PUT body may carry. */
  const AllowedKeys: seq<string> := ["name", "description", "price", "category", "ingredients", "available"]

  /** `isString` and `isLength({min: 3})`. */
  predicate NameOk(v: Option<Value>) {
    v.Some? && v.value.Str? && |v.value.s| >= 3
  }

  /** `isString` and `isLength({min: 10})`. */
  predicate DescriptionOk(v: Option<Value>) {
    v.Some? && v.value.Str? && |v.value.s| >= 10
  }

  /** `isFloat({gt: 0})`: a number above zero, or a string holding a decimal numeral above zero. */
  predicate PriceOk(v: Option<Value>) {
    v.Some? &&
    match v.value
    case Num(n) => n > 0.0
    case Str(s) => DecimalText(s).Some? && DecimalText(s).value > 0.0
    case _ => false
  }

  /** `isIn(Categories)`. */
  predicate CategoryOk(v: Option<Value>) {
    v.Some? && v.value.Str? && v.value.s in Categories
  }

  /** `isArray({min: 1})`. */
  predicate IngredientsOk(v: Option<Value>) {
    v.Some? && v.value.Arr? && |v.value.elems| >= 1
  }

  /** The values `isBoolean()` accepts once the validator has turned them into text:
      a boolean, the strings "true", "false", "1" and "0", and the numbers 1 and 0. */
  predicate BooleanLike(v: Value) {
    match v
    case Bool(_) => true
    case Str(s) => s == "true" || s == "false" || s == "1" || s == "0"
    case Num(n) => n == 1.0 || n == 0.0
    case _ => false
  }

  /** `optional().isBoolean()`: absence is not a violation. */
  predicate AvailableOk(v: Option<Value>) {
    v.None? || BooleanLike(v.value)
  }

  /** Whether `body` satisfies `rule`. */
  predicate Holds(rule: Rule, body: Body) {
    match rule
    case NameRule => NameOk(Lookup(body, "name"))
    case DescriptionRule => DescriptionOk(Lookup(body, "description"))
    case PriceRule => PriceOk(Lookup(body, "price"))
    case CategoryRule => CategoryOk(Lookup(body, "category"))
    case IngredientsRule => IngredientsOk(Lookup(body, "ingredients"))
    case AvailableRule => AvailableOk(Lookup(body, "available"))
  }

  function Check(rule: Rule, body: Body): seq<Rule> {
    if Holds(rule, body) then [] else [rule]
  }

  /** Runs every rule (none short-circuits the others) and lists the violated ones
      in the chain's order; `handleErrors` rejects exactly when the list is non-empty. */
  function ValidateItems(body: Body): (errs: seq<Rule>)
    ensures forall rule :: rule in errs <==> !Holds(rule, body)
    ensures |errs| <= 6
    ensures errs == [] <==>
      && NameOk(Lookup(body, "name"))
      && DescriptionOk(Lookup(body, "description"))
      && PriceOk(Lookup(body, "price"))
      && CategoryOk(Lookup(body, "category"))
      && IngredientsOk(Lookup(body, "ingredients"))
      && AvailableOk(Lookup(body, "available"))
  {
    var errs := Check(NameRule, body) + Check(DescriptionRule, body) + Check(PriceRule, body)
      + Check(CategoryRule, body) + Check(IngredientsRule, body) + Check(AvailableRule, body);
    assert forall rule :: rule in errs <==> rule in Check(rule, body);
    errs
  }

  /** The handlers' own type checks, each answered with its own message. */
  datatype TypeCheck = NameNotString | PriceNotNumber | IngredientsNotArray

  /** The POST handler's guard: the first of "no name or not a string" and
      "no price or not a number" that fails. */
  function PostTypeError(body: Body): (r: Option<TypeCheck>)
    ensures r == Some(NameNotString) <==>
      var name := Lookup(body, "name");
      !(name.Some? && name.value.Str? && name.value.s != "")
    ensures r == Some(PriceNotNumber) <==>
      var name, price := Lookup(body, "name"), Lookup(body, "price");
      name.Some? && name.value.Str? && name.value.s != "" && !(price.Some? && price.value.Num?)
    ensures r.None? <==>
      var name, price := Lookup(body, "name"), Lookup(body, "price");
      name.Some? && name.value.Str? && name.value.s != "" && price.Some? && price.value.Num?
    ensures r != Some(IngredientsNotArray)
  {
    var name, price := Lookup(body, "name"), Lookup(body, "price");
    if name.None? || !Truthy(name.value) || !name.value.Str? then Some(NameNotString)
    // `price == null` covers undefined and null; `typeof price !== "number"` covers null too
    else if price.None? || !price.value.Num? then Some(PriceNotNumber)
    else None
  }

  /** The PUT handler's type checks, applied only to the fields the body carries;
      the first that fails wins. */
  function PutTypeError(body: Body): (r: Option<TypeCheck>)
    ensures r == Some(NameNotString) <==>
      Lookup(body, "name").Some? && !Lookup(body, "name").value.Str?
    ensures r == Some(PriceNotNumber) <==>
      && (Lookup(body, "name").Some? ==> Lookup(body, "name").value.Str?)
      && Lookup(body, "price").Some? && !Lookup(body, "price").value.Num?
    ensures r == Some(IngredientsNotArray) <==>
      && (Lookup(body, "name").Some? ==> Lookup(body, "name").value.Str?)
      && (Lookup(body, "price").Some? ==> Lookup(body, "price").value.Num?)
      && Lookup(body, "ingredients").Some? && !Lookup(body, "ingredients").value.Arr?
    ensures r.None? <==>
      && (Lookup(body, "name").Some? ==> Lookup(body, "name").value.Str?)
      && (Lookup(body, "price").Some? ==> Lookup(body, "price").value.Num?)
      && (Lookup(body, "ingredients").Some? ==> Lookup(body, "ingredients").value.Arr?)
  {
    var name, price, ingredients := Lookup(body, "name"), Lookup(body, "price"), Lookup(body, "ingredients");
    if name.Some? && !name.value.Str? then Some(NameNotString)
    else if price.Some? && !price.value.Num? then Some(PriceNotNumber)
    else if ingredients.Some? && !ingredients.value.Arr? then Some(IngredientsNotArray)
    else None
  }

  /** The first key of `body`, in written order, that is not an allowed key. */
  function FirstDisallowed(body: Body): (r: Option<string>)
    ensures r.None? <==> forall i | 0 <= i < |body| :: body[i].key in AllowedKeys
    ensures r.Some? ==>
      exists i | 0 <= i < |body| ::
        body[i].key == r.value && r.value !in AllowedKeys &&
        forall j | 0 <= j < i :: body[j].key in AllowedKeys
  {
    if body == [] then None
    else if body[0].key !in AllowedKeys then Some(body[0].key)
    else FirstDisallowed(body[1..])
  }

  /** The PUT handler's allow-list loop over the body's keys, returning at the first
      key outside the list. */
  method FindDisallowedKey(body: Body) returns (r: Option<string>)
    ensures r == FirstDisallowed(body)
  {
    var i := 0;
    while i < |body|
      invariant 0 <= i <= |body|
      invariant FirstDisallowed(body) == FirstDisallowed(body[i..])
    {
      if body[i].key !in AllowedKeys {
        return Some(body[i].key);
      }
      assert body[i..][1..] == body[i + 1..];
      i := i + 1;
    }
    return None;
  }
}
