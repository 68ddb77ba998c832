/** The service's state, the module-level `menuItems` array, and the route handlers
    that read and change it in place. Each handler is specified by the function of
    the `Store` module that describes the same request. */
module Catalog {
  import opened Json
  import opened Validator
  import opened Store

  class MenuStore {
    /** The menu entries, in insertion order. */
    var items: seq<MenuItem>

    /** The collection as the service starts. */
    constructor ()
      ensures items == Seed()
    {
      items := Seed();
    }

    /** GET of the whole menu. */
    method List() returns (r: seq<MenuItem>)
      ensures r == items
    {
      r := items;
    }

    /** Linear search for the first entry with the given id (`findIndex`); -1 when there is none. */
    method FindIndex(id: int) returns (k: int)
      ensures -1 <= k < |items|
      ensures k == IndexOf(items, id)
    {
      k := 0;
      while k < |items|
        invariant 0 <= k <= |items|
        invariant forall j | 0 <= j < k :: items[j].id != id
      {
        if items[k].id == id {
          return;
        }
        k := k + 1;
      }
      k := -1;
    }

    /** GET of one entry by id. */
    method Get(id: int) returns (r: Response)
      ensures r == FindItem(items, id)
    {
      var k := FindIndex(id);
      if k == -1 {
        r := NotFound;
      } else {
        r := Ok(items[k]);
      }
    }

    /** POST: validate, apply the handler's guard, then push a new entry. */
    method Create(body: Body) returns (r: Response)
      modifies this
      ensures Step(r, items) == CreateItem(old(items), body)
    {
      var errs := ValidateItems(body);
      if errs != [] {
        return Errors(errs);
      }
      var guard := PostTypeError(body);
      if guard.Some? {
        return WrongType(guard.value);
      }
      var e := NewItem(|items| + 1, body);
      items := items + [e];
      r := Ok(e);
    }

    /** PUT: validate, find the entry, check the keys and the types, then replace
        the entry at its index by the merge of it and the body. */
    method Update(id: int, body: Body) returns (r: Response)
      modifies this
      ensures Step(r, items) == UpdateItem(old(items), id, body)
    {
      var errs := ValidateItems(body);
      if errs != [] {
        return Errors(errs);
      }
      var k := FindIndex(id);
      if k == -1 {
        return NotFound;
      }
      var bad := FindDisallowedKey(body);
      if bad.Some? {
        return InvalidField(bad.value);
      }
      var wrong := PutTypeError(body);
      if wrong.Some? {
        return WrongType(wrong.value);
      }
      items := items[k := Merge(items[k], body)];
      r := Ok(items[k]);
    }

    /** DELETE: find the entry and splice it out. */
    method Delete(id: int) returns (r: Response)
      modifies this
      ensures Step(r, items) == DeleteItem(old(items), id)
    {
      var k := FindIndex(id);
      if k == -1 {
        return NotFound;
      }
      r := Ok(items[k]);
      items := items[..k] + items[k + 1..];
    }
  }
}
