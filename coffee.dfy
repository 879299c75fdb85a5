/**
 * The coffee-shop drink endpoints over an in-memory drink table. Every
 * route except the public drink list runs behind the authorization gate
 * with its own fixed permission.
 */
module CoffeeShop {
  import opened Outcomes
  import opened PyValues
  import opened Auth

  /** A row of the drink table; title and recipe are stored as the request supplied them. */
  datatype Drink = Drink(id: int, title: Json, recipe: Json)

  /** The routes of the drink API. */
  datatype Route = ListRoute | DetailRoute | CreateRoute | UpdateRoute | DeleteRoute

  /** The permission each route's guard demands (None: no guard). */
  function RequiredPermission(route: Route): Option<string>
  {
    match route
    case ListRoute => None
    case DetailRoute => Some("get:drinks-detail")
    case CreateRoute => Some("post:drinks")
    case UpdateRoute => Some("patch:drinks")
    case DeleteRoute => Some("delete:drinks")
  }

  /** Only the public list is unguarded, and no two routes share a permission. */
  lemma PermissionTableIsInjective()
    ensures forall r :: RequiredPermission(r).None? <==> r == ListRoute
    ensures forall r1, r2 :: RequiredPermission(r1).Some? && RequiredPermission(r1) == RequiredPermission(r2) ==> r1 == r2
  {
  }

  /** `drink.title`/`drink.recipe` after a PATCH: each replaced exactly when a truthy value was sent. */
  function Patched(d: Drink, title: Json, recipe: Json): (p: Drink)
    ensures p.id == d.id
    ensures Truthy(title) ==> p.title == title
    ensures !Truthy(title) ==> p.title == d.title
    ensures Truthy(recipe) ==> p.recipe == recipe
    ensures !Truthy(recipe) ==> p.recipe == d.recipe
  {
    var withTitle := if Truthy(title) then d.(title := title) else d;
    if Truthy(recipe) then withTitle.(recipe := recipe) else withTitle
  }

  predicate HasDrink(drinks: seq<Drink>, id: int)
  {
    exists i :: 0 <= i < |drinks| && drinks[i].id == id
  }

  /** `body.get(key)`: the value sent, or None when the key is absent. */
  function Get(body: map<string, Json>, key: string): Json
  {
    if key in body then body[key] else JNull
  }

  /** No two rows share an id. */
  ghost predicate DistinctIds(drinks: seq<Drink>)
  {
    forall i, j :: 0 <= i < j < |drinks| ==> drinks[i].id != drinks[j].id
  }

  /** Every id is below the next id the database hands out. */
  ghost predicate IdsBelow(drinks: seq<Drink>, bound: int)
  {
    forall i :: 0 <= i < |drinks| ==> drinks[i].id < bound
  }

  /** Cutting one row out keeps the ids distinct and below the bound. */
  lemma CutKeepsIds(drinks: seq<Drink>, k: int, bound: int)
    requires 0 <= k < |drinks| && DistinctIds(drinks) && IdsBelow(drinks, bound)
    ensures DistinctIds(drinks[..k] + drinks[k + 1..]) && IdsBelow(drinks[..k] + drinks[k + 1..], bound)
  {
    var rest := drinks[..k] + drinks[k + 1..];
    forall i | 0 <= i < |rest| ensures rest[i] == drinks[if i < k then i else i + 1] {
      if i < k {
        assert rest[i] == drinks[..k][i];
      } else {
        assert rest[i] == drinks[k + 1..][i - k];
      }
    }
    forall i, j | 0 <= i < j < |rest| ensures rest[i].id != rest[j].id {
      assert rest[i] == drinks[if i < k then i else i + 1];
      assert rest[j] == drinks[if j < k then j else j + 1];
    }
  }

  /** Replacing a row by one with the same id keeps the ids distinct and below the bound. */
  lemma ReplaceKeepsIds(drinks: seq<Drink>, k: int, d: Drink, bound: int)
    requires 0 <= k < |drinks| && d.id == drinks[k].id && DistinctIds(drinks) && IdsBelow(drinks, bound)
    ensures DistinctIds(drinks[k := d]) && IdsBelow(drinks[k := d], bound)
  {
  }

  class DrinkDb {
    var drinks: seq<Drink>
    var nextId: int   // the id the database assigns to the next inserted drink

    ghost predicate Valid()
      reads this
    {
      DistinctIds(drinks) && IdsBelow(drinks, nextId)
    }

    constructor (drinks0: seq<Drink>, nextId0: int)
      requires DistinctIds(drinks0) && IdsBelow(drinks0, nextId0)
      ensures Valid() && drinks == drinks0 && nextId == nextId0
    {
      drinks, nextId := drinks0, nextId0;
    }

    /** The loop of both list endpoints: one entry per drink, in table order; 404 when there is none. */
    method Listing<V>(view: Drink -> V) returns (r: Result<seq<V>, Failure>)
      ensures r == Failure(Abort(404)) <==> drinks == []
      ensures r.Success? || r == Failure(Abort(404))
      ensures r.Success? ==> |r.value| == |drinks| && forall i :: 0 <= i < |drinks| ==> r.value[i] == view(drinks[i])
    {
      var out: seq<V> := [];
      for i := 0 to |drinks|
        invariant |out| == i
        invariant forall k :: 0 <= k < i ==> out[k] == view(drinks[k])
      {
        out := out + [view(drinks[i])];
      }
      if out == [] {
        return Failure(Abort(404));
      }
      r := Success(out);
    }

    /** GET /drinks (no guard): the short form of every drink. */
    method GetDrinks<V>(short: Drink -> V) returns (r: Result<seq<V>, Failure>)
      ensures r == Failure(Abort(404)) <==> drinks == []
      ensures r.Success? || r == Failure(Abort(404))
      ensures r.Success? ==> |r.value| == |drinks| && forall i :: 0 <= i < |drinks| ==> r.value[i] == short(drinks[i])
    {
      r := Listing(short);
    }

    /** GET /drinks-detail behind "get:drinks-detail": the long form of every drink. */
    method GetDrinkDetails<V>(ctx: Context, long: Drink -> V) returns (r: Result<seq<V>, Failure>)
      ensures Authorization(RequiredPermission(DetailRoute).value, ctx).Failure? ==>
                r == Failure(Authorization(RequiredPermission(DetailRoute).value, ctx).error)
      ensures Authorization(RequiredPermission(DetailRoute).value, ctx).Success? ==>
                && (r == Failure(Abort(404)) <==> drinks == [])
                && (r.Success? || r == Failure(Abort(404)))
                && (r.Success? ==> |r.value| == |drinks| && forall i :: 0 <= i < |drinks| ==> r.value[i] == long(drinks[i]))
    {
      var gate := Authorization(RequiredPermission(DetailRoute).value, ctx);
      if gate.Failure? {
        return Failure(gate.error);
      }
      r := Listing(long);
    }

    /**
     * POST /drinks behind "post:drinks". Both keys must be present in the
     * body; 404 when neither value is truthy; otherwise one new row.
     */
    method CreateDrink(ctx: Context, body: map<string, Json>) returns (r: Result<Drink, Failure>)
      requires Valid()
      modifies this
      ensures Valid()
      ensures Authorization(RequiredPermission(CreateRoute).value, ctx).Failure? ==>
                r == Failure(Authorization(RequiredPermission(CreateRoute).value, ctx).error)
      ensures Authorization(RequiredPermission(CreateRoute).value, ctx).Success? ==>
                && (("title" !in body || "recipe" !in body) ==> r == Failure(Uncaught("KeyError")))
                && ("title" in body && "recipe" in body ==>
                      (r == Failure(Abort(404)) <==> !Truthy(body["title"]) && !Truthy(body["recipe"])))
                && (r.Success? || r == Failure(Abort(404)) || r == Failure(Uncaught("KeyError")))
                && ("title" in body && "recipe" in body && (Truthy(body["title"]) || Truthy(body["recipe"])) ==> r.Success?)
      ensures r.Failure? ==> drinks == old(drinks) && nextId == old(nextId)
      ensures r.Success? ==>
                && r.value == Drink(old(nextId), body["title"], body["recipe"])
                && drinks == old(drinks) + [r.value]
                && nextId == old(nextId) + 1
    {
      var gate := Authorization(RequiredPermission(CreateRoute).value, ctx);
      if gate.Failure? {
        return Failure(gate.error);
      }
      if "title" !in body || "recipe" !in body {
        return Failure(Uncaught("KeyError"));
      }
      var title, recipe := body["title"], body["recipe"];
      if !(Truthy(title) || Truthy(recipe)) {
        return Failure(Abort(404));
      }
      var drink := Drink(nextId, title, recipe);
      drinks := drinks + [drink];
      nextId := nextId + 1;
      r := Success(drink);
    }

    /**
     * PATCH /drinks/<id> behind "patch:drinks": 404 for an unknown id or
     * when neither a truthy title nor a truthy recipe was sent; otherwise
     * that drink is patched in place and every other row is untouched.
     */
    method UpdateDrink(ctx: Context, drinkId: int, body: map<string, Json>) returns (r: Result<Drink, Failure>)
      requires Valid()
      modifies this
      ensures Valid() && nextId == old(nextId)
      ensures Authorization(RequiredPermission(UpdateRoute).value, ctx).Failure? ==>
                r == Failure(Authorization(RequiredPermission(UpdateRoute).value, ctx).error)
      ensures Authorization(RequiredPermission(UpdateRoute).value, ctx).Success? ==>
                (r == Failure(Abort(404)) <==>
                   !HasDrink(old(drinks), drinkId) || (!Truthy(Get(body, "title")) && !Truthy(Get(body, "recipe"))))
      ensures Authorization(RequiredPermission(UpdateRoute).value, ctx).Success? ==> r.Success? || r == Failure(Abort(404))
      ensures r.Failure? ==> drinks == old(drinks)
      ensures r.Success? ==>
                && |drinks| == |old(drinks)|
                && (forall i :: 0 <= i < |drinks| ==>
                      drinks[i] == if old(drinks)[i].id == drinkId
                                   then Patched(old(drinks)[i], Get(body, "title"), Get(body, "recipe"))
                                   else old(drinks)[i])
                && r.value.id == drinkId && r.value in drinks
    {
      var gate := Authorization(RequiredPermission(UpdateRoute).value, ctx);
      if gate.Failure? {
        return Failure(gate.error);
      }
      if !HasDrink(drinks, drinkId) {
        return Failure(Abort(404));
      }
      var k :| 0 <= k < |drinks| && drinks[k].id == drinkId;
      var title, recipe := Get(body, "title"), Get(body, "recipe");
      if !(Truthy(title) || Truthy(recipe)) {
        return Failure(Abort(404));
      }
      var patched := Patched(drinks[k], title, recipe);
      ReplaceKeepsIds(drinks, k, patched, nextId);
      drinks := drinks[k := patched];
      r := Success(patched);
    }

    /** DELETE /drinks/<id> behind "delete:drinks": 404 for an unknown id, otherwise exactly that row goes. */
    method DeleteDrink(ctx: Context, drinkId: int) returns (r: Result<int, Failure>)
      requires Valid()
      modifies this
      ensures Valid() && nextId == old(nextId)
      ensures Authorization(RequiredPermission(DeleteRoute).value, ctx).Failure? ==>
                r == Failure(Authorization(RequiredPermission(DeleteRoute).value, ctx).error)
      ensures Authorization(RequiredPermission(DeleteRoute).value, ctx).Success? ==>
                (r == Failure(Abort(404)) <==> !HasDrink(old(drinks), drinkId))
      ensures Authorization(RequiredPermission(DeleteRoute).value, ctx).Success? && HasDrink(old(drinks), drinkId) ==>
                r == Success(drinkId)
      ensures r.Failure? ==> drinks == old(drinks)
      ensures r.Success? ==>
                && r.value == drinkId
                && exists k :: && 0 <= k < |old(drinks)| && old(drinks)[k].id == drinkId
                               && drinks == old(drinks)[..k] + old(drinks)[k + 1..]
    {
      var gate := Authorization(RequiredPermission(DeleteRoute).value, ctx);
      if gate.Failure? {
        return Failure(gate.error);
      }
      if !HasDrink(drinks, drinkId) {
        return Failure(Abort(404));
      }
      var k :| 0 <= k < |drinks| && drinks[k].id == drinkId;
      CutKeepsIds(drinks, k, nextId);
      drinks := drinks[..k] + drinks[k + 1..];
      r := Success(drinkId);
    }
  }

  /** The store changes only for a caller whose decoded claims grant the route's permission. */
  lemma ChangeNeedsPermission(route: Route, ctx: Context)
    requires RequiredPermission(route).Some?
    requires Authorization(RequiredPermission(route).value, ctx).Success?
    ensures var p := Authorization(RequiredPermission(route).value, ctx).value;
            && "permissions" in p
            && Contains(p["permissions"], RequiredPermission(route).value) == Success(true)
  {
  }

  /**
   * Under the gate as written, a guarded route is reached by a caller whose
   * singular "permission" claim grants the route's permission, whatever the
   * documented "permissions" claim holds.
   */
  lemma AsWrittenChangeNeedsSingularClaim(route: Route, ctx: Context)
    requires RequiredPermission(route).Some?
    requires AuthorizationAsWritten(RequiredPermission(route).value, ctx).Success?
    ensures var p := AuthorizationAsWritten(RequiredPermission(route).value, ctx).value;
            && "permissions" in p && "permission" in p
            && Contains(p["permission"], RequiredPermission(route).value) == Success(true)
  {
  }
}
