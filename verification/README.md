# Menu catalog service: validator and in-memory store

This project models the core of a small Express menu service. The service keeps an
in-memory array of menu entries, `menuItems`, which starts with six seed entries.
It exposes list, get, create (POST), update (PUT) and delete (DELETE) handlers over
that array. Create and update bodies first go through the `validateItems` rule
chain. Its error handler rejects the request whenever any rule fails. The handlers
then apply their own first-failure checks.

Files:

- `json.dfy` (module `Json`): parsed request bodies. A body is the list of its
  fields in written order. A JSON value is a string, number, boolean, array, null or
  object, and an absent key is `None`. `Lookup` gives the last value written for a
  key. `Truthy` is JavaScript truthiness, used by `||` and `Boolean()`.
  `DecimalText` reads an unsigned decimal numeral.
- `validator.dfy` (module `Validator`): the six field rules and `ValidateItems`,
  which reports every violated rule. It also holds the POST guard
  (`PostTypeError`), the PUT type checks (`PutTypeError`), and the PUT allow-list
  scan, both as a function (`FirstDisallowed`) and as the early-return loop
  (`FindDisallowedKey`).
- `store.dfy` (module `Store`): the entry record, the seed data, and one function
  per handler. Each function maps the collection before a request to the response
  and the collection after it (`FindItem`, `CreateItem`, `UpdateItem`,
  `DeleteItem`). They are built from the `findIndex` search (`IndexOf`), the POST
  entry builder (`NewItem`) and the spread merge (`Merge`).
- `catalog.dfy` (module `Catalog`): the class `MenuStore`. Its field `items` is the
  module-level array, and its methods are the handlers. Each method changes `items`
  in place: append, replace at an index, or splice. Each is proved equal to the
  matching `Store` function. `FindIndex` is the linear search loop.
- `properties.dfy` (module `Properties`): properties that span requests: id
  invariants, round trips, idempotence, deletion, and the check order.

Behaviour that follows the code rather than the intent its messages suggest:

- The accepted categories are `appetizer`, `entree`, `desert` and `beverage`
  (server.js:96). "dessert" is refused, although the error message and seed entry 4
  spell it that way. Seed entry 4 is therefore stored with a category the chain
  refuses (`SeedHoldsUnacceptedCategory`).
- PUT runs the full create chain first (server.js:155). A genuinely partial body is
  always refused, and so is the empty body (`EmptyUpdateRejected`,
  `PriceOnlyUpdateRejected`). `{bogusField: 1}` is refused by the chain before the
  allow-list is consulted (`BogusFieldFailsChainFirst`).
- PUT checks in this order: chain errors, then a missing id, then the first key
  outside the allow-list, then the first failing type check.
- A new id is the collection length plus one (server.js:140). While no entry has
  been deleted, every id equals its position plus one, so ids are unique. After a
  delete, a create can reuse a live id. GET then finds the older entry, and it takes
  two DELETEs to remove both (`DeleteThenCreateDuplicatesId`).
- Once the chain accepts, the POST name check can no longer fail. In this model,
  the price checks of POST and PUT then fail exactly for a price written as a
  decimal string such as `"5.5"`, which `isFloat` accepts
  (`PostGuardAfterValidation`, `PutTypeCheckAfterValidation`). The library's
  `isFloat` lets through more forms than the model does (see "Left out"), and each
  of those would also trip these checks.
- `available` passes the chain as a boolean, as one of the strings "true", "false",
  "1" and "0", or as the number 1 or 0. POST stores `Boolean(available)`, so
  `"false"` becomes true. PUT copies the value as given, so `"false"` stays a
  string (`AvailableTextStoredDifferently`).

## Model

| member | source | states |
|---|---|---|
| Json.Lookup | server.js:130 | a key is absent exactly when no field has it; otherwise the result is the value of the last field with that key |
| Json.DecimalText | server.js:92-93 | a string read as a price has a non-negative value and at least one digit; a plain digit string denotes its digits' value |
| Json.NumeralValue | server.js:92-93 | a numeral with a point lies between its whole part and the next integer, and equals its whole part when the fraction digits are all zero |
| Json.DecimalTextWithPoint | server.js:92-93 | digits, a point, and digits (at least one digit in all) denote the whole part plus the fraction |
| Json.DecimalTextRefusesOtherChars | server.js:92-93 | a string with any character other than digits and a point, such as an exponent or a sign, is not read as a numeral |
| Validator.ValidateItems | server.js:86-110 | a rule is reported exactly when it fails; the list is empty exactly when name is a string of length at least 3, description a string of length at least 10, price above zero, category one of appetizer/entree/desert/beverage, ingredients an array of length at least 1, and available absent or a value `isBoolean` accepts (a boolean, "true", "false", "1", "0", 1 or 0) |
| Validator.PostTypeError | server.js:133-137 | the name failure is reported exactly when name is missing, empty or not a string; the price failure exactly when the name check passed and price is missing or not a number; none exactly when both pass |
| Validator.PutTypeError | server.js:170-175 | each failure is reported exactly when its own check fails (a present name not a string, a present price not a number, present ingredients not an array) and every earlier check passed; none exactly when all pass |
| Validator.FirstDisallowed | server.js:162-167 | none exactly when every key is allowed; otherwise the key at the first position whose key is outside the allow-list |
| Validator.FindDisallowedKey | server.js:163-167 | the early-return loop over the body's keys yields exactly the first key outside the allow-list |
| Store.IndexOf | server.js:157 | -1 exactly when no entry has the id; otherwise an index whose entry has the id and before which none does |
| Store.FindItem | server.js:121-125 | not found exactly when no entry has the id; otherwise the first entry with the id |
| Store.NewItem | server.js:139-148 | the new entry has the given id and the body's name and price; description and category are the body's when truthy and "" otherwise; ingredients are the body's when an array and [] otherwise; `available` is true when absent and the truthiness of the given value otherwise |
| Store.Merge | server.js:178 | each of the six fields is the body's value when the body has the key and the entry's old value otherwise; the id never changes |
| Store.CreateItem | server.js:129-152 | validation errors exactly when the chain reports some; a type failure is the guard's own verdict on the body; any rejection leaves the collection unchanged; on success exactly one entry, the one built from the body with id equal to the old length plus one, is appended |
| Store.UpdateItem | server.js:155-180 | rejections come in the order chain errors, not found, unknown key, wrong type, and leave the collection unchanged; the reported rules are the chain's own list; an unknown key is the body's first key outside the allow-list and a type failure is the PUT checks' own verdict; on success only the entry at the found index is replaced, by its merge with the body |
| Store.DeleteItem | server.js:183-189 | not found exactly when no entry has the id, with the collection unchanged; otherwise the first entry with the id is returned and removed, the others keep their order, and the length drops by one |
| Catalog.MenuStore.constructor | server.js:10-65 | the collection starts as the six seed entries |
| Catalog.MenuStore.List | server.js:116-118 | returns the whole collection in order |
| Catalog.MenuStore.FindIndex | server.js:185 | the linear search loop returns the index of the first entry with the id, or -1 |
| Catalog.MenuStore.Get | server.js:121-125 | answers as FindItem and changes nothing |
| Catalog.MenuStore.Create | server.js:139-151 | the response and the new collection are those of CreateItem on the old collection |
| Catalog.MenuStore.Update | server.js:155-179 | the response and the new collection are those of UpdateItem on the old collection |
| Catalog.MenuStore.Delete | server.js:183-189 | the response and the new collection are those of DeleteItem on the old collection |
| Properties.NonPositivePriceRejected | server.js:93-94 | a numeric price at or below zero is always reported, whatever the other fields hold |
| Properties.DessertRejected | server.js:95-96 | category "dessert" is reported and POST rejects the body without changing the collection |
| Properties.PriceTextCases | server.js:92-93 | the price rule accepts "5.5" and "12" and refuses "0.0" and "1e3" |
| Properties.PostGuardAfterValidation | server.js:133-137 | after the chain accepts, the name check never fails and the price check fails exactly for a string price |
| Properties.CreateAcceptsExactly | server.js:129-152 | POST creates an entry exactly when the chain accepts and the price is a JSON number |
| Properties.PutTypeCheckAfterValidation | server.js:155-175 | after the chain accepts, only the PUT price check can fail, and it fails exactly for a string price |
| Properties.CreatedEntryEchoesBody | server.js:139-148 | a created entry carries the body's own values; the fallbacks never apply and `available` is the truthiness of the given value, or true when absent |
| Properties.CreatedEntryConforms | server.js:139-148 | every created entry satisfies all field rules, with a positive numeric price |
| Properties.TacoAccepted | server.js:86-102 | the taco body passes every rule and has no `available` |
| Properties.CreateTaco | server.js:139-151 | creating the taco on the seed data yields id 7 with `available` true |
| Properties.CreateTacoOn | server.js:139-151 | on any collection the taco is created with id equal to the length plus one and `available` true |
| Properties.SeedIdsMatchPositions | server.js:10-65 | every seed id equals its position plus one |
| Properties.SeedHoldsUnacceptedCategory | server.js:38-46 | seed entry 4 has category "dessert", which the chain refuses |
| Properties.IdsMatchPositionsAreUnique | server.js:140 | ids equal to position plus one are unique |
| Properties.CreateKeepsIdsMatchingPositions | server.js:140 | create keeps every id equal to its position plus one, and a new id exceeds all earlier ones |
| Properties.UpdateKeepsIds | server.js:178 | update keeps the length and every entry's id |
| Properties.FindAfterCreate | server.js:121-151 | while ids match positions, getting the new id returns the created entry |
| Properties.DeleteThenCreateDuplicatesId | server.js:139-189 | after deleting id 1, a create reuses the last live id; GET finds the older entry and two DELETEs are needed |
| Properties.DuplicateIdAfterShift | server.js:183-189 | with the last id duplicated at the end, GET and DELETE reach the older entry first and a second DELETE reaches the new one |
| Properties.SeedDeleteThenCreateDuplicatesId | server.js:139-189 | on the seed data, deleting id 1 and creating the taco gives id 6, and GET of 6 finds the fish-and-chips entry |
| Properties.MergeEmptyBody | server.js:178 | merging an empty body leaves the entry as it was |
| Properties.MergeIdempotent | server.js:178 | merging the same body twice equals merging it once |
| Properties.UpdateIdempotent | server.js:155-179 | replaying a PUT gives the same response and the same collection |
| Properties.UpdateAccepted | server.js:155-179 | a PUT that passes the chain, finds the id, and passes the allow-list and the type checks answers with the merge and stores it at the found index |
| Properties.EmptyUpdateRejected | server.js:155 | an empty PUT body is refused with the five required rules and changes nothing |
| Properties.PriceOnlyUpdateRejected | server.js:155 | a PUT body with only a price is refused and changes nothing; the price rule is reported exactly when the price is at most zero |
| Properties.BogusFieldFailsChainFirst | server.js:155-167 | `{bogusField: 1}` is refused by the chain, not by the allow-list |
| Properties.NoFieldKeysRejected | server.js:155-167 | any PUT body without a single allowed key is refused by the five required rules, before the allow-list is consulted, and changes nothing |
| Properties.NoFieldsFailRequiredRules | server.js:86-110 | a body with none of the six entry keys fails exactly the five required rules, in chain order |
| Properties.UnknownKeyRejected | server.js:162-167 | a valid body for a present id with a key outside the allow-list is refused and changes nothing |
| Properties.UpdatedEntryEchoesBody | server.js:155-178 | an updated entry holds the body's name, description, price, category and ingredients as given, keeps the old id, and keeps the old `available` unless the body gives one |
| Properties.AvailableTextStoredDifferently | server.js:147-178 | `available: "false"` passes the chain; POST then stores true, while PUT stores the string "false" |
| Properties.UpdatedEntryConforms | server.js:155-178 | an updated entry satisfies all field rules when the `available` of the entry it replaced passes the chain's rule |
| Properties.DeleteIsTerminal | server.js:183-189 | with unique ids, after a successful delete both GET and a second DELETE of the id answer not found |

## Left out

- HTTP plumbing is not modelled: the app, JSON body parsing, route registration, status codes, serialisation and `listen` (server.js:2-6, 192). Handlers return a `Response` value instead.
- The logging middleware (server.js:72-83) is left out. It only reads the clock and writes to the console.
- Path ids are taken as integers. `Number(req.params.id)`, NaN, and the `==`/`===` difference between GET and PUT/DELETE are not modelled.
- The validators' string coercions are modelled only in part. `isFloat` accepts numbers and unsigned decimal numerals here. The library also accepts signs and exponents such as `"1e3"` in a string price; these are not modelled. `isBoolean` accepts exactly the library's values. `isIn` and `isLength` accept only strings here. Array values, which the library checks element by element (so `[]` and `[5]` pass `isFloat`), are refused by every rule except the array rule.
- The exact error messages are not modelled, nor how many each field produces. The error list holds one entry per failing rule.
- Prices are reals compared with zero. Floating-point rounding is not modelled, and neither is NaN in `Truthy`.
- Nested objects are one opaque `Obj` value. Keys are visited in written order, although JavaScript lists integer-like keys first.
- Concurrency is not modelled. Handlers run one at a time.
