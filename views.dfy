/** The recipe and user views that change the database or answer from it: subscribing,
    favorites, the shopping cart, deleting a recipe, the short link and the shopping-list
    download. Each takes the requesting user (`None` for an anonymous request) and the
    database. */
module ApiViews {
  import opened Wrappers
  import opened UsersModels
  import opened RecipesModels
  import opened Schema
  import opened Store
  import opened Toggles
  import opened Responses
  import ShoppingList
  import ShortLinks
  import Serializers

  /** `POST` / `DELETE /api/users/{pk}/subscribe/`. */
  method Subscribe(db: Database, requester: Option<UserId>, pk: UserId, op: Op) returns (status: Status)
    requires db.Valid()
    requires requester.Some? ==> requester.value in db.users
    modifies db`subscriptions
    ensures db.Valid()
    ensures requester.None? ==> status == NotAuthenticated
    ensures requester.Some? && pk !in db.users ==> status == NotFound
    ensures requester == Some(pk) && pk in db.users ==> status == BadRequest
    ensures requester.None? || pk !in db.users || requester == Some(pk) ==>
      db.subscriptions == old(db.subscriptions)
    ensures requester.Some? && pk in db.users && requester.value != pk ==>
      var t := Toggle(old(db.subscriptions), Subscription(requester.value, pk), op);
      status == ToggleStatus(t.0) && db.subscriptions == t.1
  {
    if requester.None? {
      return NotAuthenticated;
    }
    var user := requester.value;
    if pk !in db.users {
      return NotFound;
    }
    if pk == user {
      return BadRequest;
    }
    var t := Toggle(db.subscriptions, Subscription(user, pk), op);
    db.subscriptions := t.1;
    status := ToggleStatus(t.0);
  }

  /** `POST` / `DELETE /api/recipes/{pk}/favorite/`. */
  method Favorite(db: Database, requester: Option<UserId>, pk: RecipeId, op: Op) returns (status: Status)
    requires db.Valid()
    requires requester.Some? ==> requester.value in db.users
    modifies db`favorites
    ensures db.Valid()
    ensures requester.None? ==> status == NotAuthenticated
    ensures requester.Some? && pk !in db.recipes ==> status == NotFound
    ensures requester.None? || pk !in db.recipes ==> db.favorites == old(db.favorites)
    ensures requester.Some? && pk in db.recipes ==>
      var t := Toggle(old(db.favorites), Mark(pk, requester.value), op);
      status == ToggleStatus(t.0) && db.favorites == t.1
  {
    if requester.None? {
      return NotAuthenticated;
    }
    if pk !in db.recipes {
      return NotFound;
    }
    var t := Toggle(db.favorites, Mark(pk, requester.value), op);
    db.favorites := t.1;
    status := ToggleStatus(t.0);
  }

  /** `POST` / `DELETE /api/recipes/{pk}/shopping_cart/`. */
  method ShoppingCart(db: Database, requester: Option<UserId>, pk: RecipeId, op: Op) returns (status: Status)
    requires db.Valid()
    requires requester.Some? ==> requester.value in db.users
    modifies db`cart
    ensures db.Valid()
    ensures requester.None? ==> status == NotAuthenticated
    ensures requester.Some? && pk !in db.recipes ==> status == NotFound
    ensures requester.None? || pk !in db.recipes ==> db.cart == old(db.cart)
    ensures requester.Some? && pk in db.recipes ==>
      var t := Toggle(old(db.cart), Mark(pk, requester.value), op);
      status == ToggleStatus(t.0) && db.cart == t.1
  {
    if requester.None? {
      return NotAuthenticated;
    }
    if pk !in db.recipes {
      return NotFound;
    }
    var t := Toggle(db.cart, Mark(pk, requester.value), op);
    db.cart := t.1;
    status := ToggleStatus(t.0);
  }

  /** The answer to `POST /api/recipes/` and the tables after it: the requester must be
      signed in and the full payload must validate; the recipe then gets the id `next`. */
  function CreateOutcome(d: Db, next: RecipeId, requester: Option<UserId>, p: Serializers.Payload)
    : (r: (Status, Db))
    ensures requester.None? ==> r.0 == NotAuthenticated
    ensures requester.Some? ==>
      (r.0 == Created <==> Serializers.Validate(p, false, d.ingredients, d.tags).Validated?) &&
      (r.0 != Created ==> r.0 == BadRequest)
    ensures r.0 != Created ==> r.1 == d
  {
    if requester.None? then (NotAuthenticated, d)
    else
      var v := Serializers.Validate(p, false, d.ingredients, d.tags);
      if !v.Validated? then (BadRequest, d)
      else (Created, Serializers.CreateSpec(d, next, requester.value, v.data))
  }

  /** A successful create keeps the database valid and adds exactly the recipe `next`. */
  lemma CreateOutcomeValid(d: Db, next: RecipeId, requester: Option<UserId>, p: Serializers.Payload)
    requires ValidDb(d) && next !in d.recipes
    requires requester.Some? ==> requester.value in d.users
    ensures var r := CreateOutcome(d, next, requester, p);
      ValidDb(r.1) && r.1.recipes.Keys == if r.0 == Created then d.recipes.Keys + {next} else d.recipes.Keys
  {
    var r := CreateOutcome(d, next, requester, p);
    if r.0 == Created {
      var v := Serializers.Validate(p, false, d.ingredients, d.tags);
      Serializers.CreateSpecValid(d, next, requester.value, v.data);
    }
  }

  /** `POST /api/recipes/`, with the id the recipe table hands out next. */
  method CreateRecipe(db: Database, requester: Option<UserId>, p: Serializers.Payload)
    returns (status: Status, id: RecipeId)
    requires db.Valid()
    requires requester.Some? ==> requester.value in db.users
    modifies db`recipes, db`recipeTags, db`lines, db`nextRecipeId
    ensures db.Valid()
    ensures (status, db.Snapshot()) == CreateOutcome(old(db.Snapshot()), old(db.nextRecipeId), requester, p)
    ensures status == Created ==> id == old(db.nextRecipeId) && db.nextRecipeId == id + 1
    ensures status != Created ==> db.nextRecipeId == old(db.nextRecipeId)
  {
    ghost var before := db.Snapshot();
    CreateOutcomeValid(before, db.nextRecipeId, requester, p);
    id := 0;
    if requester.None? {
      assert CreateOutcome(before, db.nextRecipeId, requester, p) == (NotAuthenticated, before);
      return NotAuthenticated, id;
    }
    var v := Serializers.Validate(p, false, db.ingredients, db.tags);
    if !v.Validated? {
      assert CreateOutcome(before, db.nextRecipeId, requester, p) == (BadRequest, before);
      return BadRequest, id;
    }
    id := db.nextRecipeId;
    db.nextRecipeId := id + 1;
    ApplyCreate(db, id, requester.value, v.data);
    assert CreateOutcome(before, id, requester, p) == (Created, db.Snapshot());
    assert db.recipes.Keys == before.recipes.Keys + {id};
    status := Created;
  }

  /** `RecipeCreateUpdateSerializer.create` on validated data, inside its transaction. */
  method ApplyCreate(db: Database, id: RecipeId, author: UserId, data: Serializers.RecipeData)
    requires data.image.Some? && data.name.Some? && data.text.Some? && data.cookingTime.Some?
    modifies db`recipes, db`recipeTags, db`lines
    ensures db.Snapshot() == Serializers.CreateSpec(old(db.Snapshot()), id, author, data)
  {
    // Recipe.objects.create(**validated_data), with the requester as author
    db.recipes := db.recipes[id := Recipe(id, data.name.value, data.text.value, data.cookingTime.value,
      author, data.image.value)];
    // recipe.tags.set(tags_data)
    db.recipeTags := db.recipeTags + Serializers.TagRows(id, data.tags);
    // create_ingredients
    db.lines := db.lines + Serializers.NewLines(id, data.ingredients);
  }

  /** The answer to `PUT` / `PATCH /api/recipes/{pk}/` (`partial` for PATCH) and the tables
      after it: the requester must be signed in, the recipe must exist and be theirs, and the
      payload must validate; only then does anything change. */
  function UpdateOutcome(d: Db, requester: Option<UserId>, pk: RecipeId, p: Serializers.Payload, partial: bool)
    : (r: (Status, Db))
    ensures requester.None? ==> r.0 == NotAuthenticated
    ensures requester.Some? && pk !in d.recipes ==> r.0 == NotFound
    ensures requester.Some? && pk in d.recipes && d.recipes[pk].author != requester.value ==> r.0 == Forbidden
    ensures requester.Some? && pk in d.recipes && d.recipes[pk].author == requester.value ==>
      (r.0 == Ok <==> Serializers.Validate(p, partial, d.ingredients, d.tags).Validated?) &&
      (r.0 != Ok ==> r.0 == BadRequest)
    ensures r.0 != Ok ==> r.1 == d
  {
    if requester.None? then (NotAuthenticated, d)
    else if pk !in d.recipes then (NotFound, d)
    else if d.recipes[pk].author != requester.value then (Forbidden, d)
    else
      var v := Serializers.Validate(p, partial, d.ingredients, d.tags);
      if !v.Validated? then (BadRequest, d)
      else (Ok, Serializers.UpdateSpec(d, pk, v.data))
  }

  /** A successful update keeps the database valid and its set of recipes. */
  lemma UpdateOutcomeValid(d: Db, requester: Option<UserId>, pk: RecipeId, p: Serializers.Payload, partial: bool)
    requires ValidDb(d)
    ensures var r := UpdateOutcome(d, requester, pk, p, partial);
      ValidDb(r.1) && r.1.recipes.Keys == d.recipes.Keys
  {
    var r := UpdateOutcome(d, requester, pk, p, partial);
    if r.0 == Ok {
      var v := Serializers.Validate(p, partial, d.ingredients, d.tags);
      Serializers.UpdateSpecValid(d, pk, v.data, partial);
      Serializers.UpdateSpecContents(d, pk, v.data);
    }
  }

  /** The update as the serializer performs it: the tag set is replaced, every ingredient line
      of the recipe is cleared, the new lines are inserted, and the scalar fields sent are
      saved. */
  method UpdateRecipe(db: Database, requester: Option<UserId>, pk: RecipeId, p: Serializers.Payload, partial: bool)
    returns (status: Status)
    requires db.Valid()
    modifies db`recipes, db`recipeTags, db`lines
    ensures db.Valid()
    ensures (status, db.Snapshot()) == UpdateOutcome(old(db.Snapshot()), requester, pk, p, partial)
  {
    ghost var before := db.Snapshot();
    UpdateOutcomeValid(before, requester, pk, p, partial);
    if requester.None? {
      return NotAuthenticated;
    }
    if pk !in db.recipes {
      return NotFound;
    }
    if db.recipes[pk].author != requester.value {
      return Forbidden;
    }
    var v := Serializers.Validate(p, partial, db.ingredients, db.tags);
    if !v.Validated? {
      return BadRequest;
    }
    ApplyUpdate(db, pk, v.data);
    status := Ok;
  }

  /** `RecipeCreateUpdateSerializer.update` on validated data, inside its transaction. */
  method ApplyUpdate(db: Database, pk: RecipeId, data: Serializers.RecipeData)
    requires pk in db.recipes
    modifies db`recipes, db`recipeTags, db`lines
    ensures db.Snapshot() == Serializers.UpdateSpec(old(db.Snapshot()), pk, data)
  {
    // instance.tags.set(tags_data)
    db.recipeTags := (set t | t in db.recipeTags && t.recipe != pk) + Serializers.TagRows(pk, data.tags);
    // instance.ingredients.clear()
    db.lines := KeepLines(db.lines, {pk});
    // create_ingredients
    db.lines := db.lines + Serializers.NewLines(pk, data.ingredients);
    // super().update(instance, validated_data)
    var was := db.recipes[pk];
    db.recipes := db.recipes[pk := Recipe(pk, data.name.GetOr(was.name), data.text.GetOr(was.text),
      data.cookingTime.GetOr(was.cookingTime), was.author, data.image.GetOr(was.image))];
  }

  /** `DELETE /api/recipes/{pk}/`: only the author may delete; the recipe's tag links,
      ingredient lines, favorite and cart rows go with it. */
  method DestroyRecipe(db: Database, requester: Option<UserId>, pk: RecipeId) returns (status: Status)
    requires db.Valid()
    requires requester.Some? ==> requester.value in db.users
    modifies db`recipes, db`recipeTags, db`lines, db`favorites, db`cart
    ensures db.Valid()
    ensures requester.None? ==> status == NotAuthenticated
    ensures requester.Some? && pk !in old(db.recipes) ==> status == NotFound
    ensures requester.Some? && pk in old(db.recipes) && old(db.recipes)[pk].author != requester.value ==>
      status == Forbidden
    ensures status == NoContent <==>
      requester.Some? && pk in old(db.recipes) && old(db.recipes)[pk].author == requester.value
    ensures status == NoContent ==> db.Snapshot() == DeleteRecipe(old(db.Snapshot()), pk)
    ensures status != NoContent ==> db.Snapshot() == old(db.Snapshot())
  {
    if requester.None? {
      return NotAuthenticated;
    }
    if pk !in db.recipes {
      return NotFound;
    }
    if db.recipes[pk].author != requester.value {
      return Forbidden;
    }
    ghost var was := db.Snapshot();
    DeleteRecipesKeepsValid(was, {pk});
    ApplyDelete(db, pk);
    assert forall k :: k in db.recipes ==> k in was.recipes;
    status := NoContent;
  }

  /** `instance.delete()`: the recipe goes, and the database's cascades take its tag links,
      lines, favorite and cart rows with it. */
  method ApplyDelete(db: Database, pk: RecipeId)
    modifies db`recipes, db`recipeTags, db`lines, db`favorites, db`cart
    ensures db.Snapshot() == DeleteRecipe(old(db.Snapshot()), pk)
  {
    var e := DeleteRecipe(db.Snapshot(), pk);
    db.recipes, db.recipeTags, db.lines, db.favorites, db.cart := e.recipes, e.recipeTags, e.lines, e.favorites, e.cart;
  }

  /** `GET /api/recipes/{pk}/get-link/`: the recipe's short path, or 404. */
  function GetLink(recipes: map<RecipeId, Recipe>, pk: RecipeId): (r: (Status, string))
    ensures r.0 == Ok <==> pk in recipes
    ensures r.0 != Ok ==> r.0 == NotFound
    ensures r.0 == Ok ==> r.1 == "/s/" + ShortLinks.ShortCode(pk) + "/"
    ensures r.0 == Ok ==>
      ShortLinks.Resolve(recipes.Keys, ShortLinks.ShortCode(pk)) == ShortLinks.RedirectTo(ShortLinks.RecipePath(pk))
  {
    if pk in recipes then
      ShortLinks.ShortLinkRoundTrip(recipes.Keys, pk);
      (Ok, ShortLinks.ShortPath(pk))
    else (NotFound, "")
  }

  /** The ingredient lines of one recipe as the shopping list reads them. */
  function Entries(lines: seq<IngredientLine>, ingredients: map<IngredientId, Ingredient>): (es: seq<ShoppingList.Entry>)
    requires forall i :: 0 <= i < |lines| ==> lines[i].ingredient in ingredients && lines[i].amount >= 0
    ensures |es| == |lines|
    ensures forall i :: 0 <= i < |lines| ==>
      es[i] == ShoppingList.Entry(ingredients[lines[i].ingredient], lines[i].amount)
  {
    if |lines| == 0 then []
    else
      var l := lines[|lines| - 1];
      Entries(lines[..|lines| - 1], ingredients) + [ShoppingList.Entry(ingredients[l.ingredient], l.amount)]
  }

  lemma LinesOfValid(d: Db, r: RecipeId)
    requires ValidDb(d)
    ensures var ls := LinesOf(d.lines, r);
      forall i :: 0 <= i < |ls| ==> ls[i].ingredient in d.ingredients && ls[i].amount >= 1
  {
    var ls := LinesOf(d.lines, r);
    forall i | 0 <= i < |ls| ensures ls[i].ingredient in d.ingredients && ls[i].amount >= 1 {
      assert ls[i] in ls;
      var j :| 0 <= j < |d.lines| && d.lines[j] == ls[i];
    }
  }

  /** The lines of every recipe in the cart, recipe after recipe in `order`. */
  function CartItems(d: Db, order: seq<RecipeId>): (items: seq<seq<ShoppingList.Entry>>)
    requires ValidDb(d)
    ensures |items| == |order|
  {
    if |order| == 0 then []
    else
      var r := order[|order| - 1];
      LinesOfValid(d, r);
      CartItems(d, order[..|order| - 1]) + [Entries(LinesOf(d.lines, r), d.ingredients)]
  }

  /** `GET /api/recipes/download_shopping_cart/`. `order` is the order in which the database
      yields the requester's cart rows. */
  method DownloadShoppingCart(db: Database, requester: Option<UserId>, order: seq<RecipeId>)
    returns (status: Status, text: string)
    requires db.Valid()
    requires requester.Some? ==> forall r :: r in order <==> Mark(r, requester.value) in db.cart
    requires forall a, b :: 0 <= a < b < |order| ==> order[a] != order[b]
    ensures requester.None? ==> status == NotAuthenticated && text == ""
    ensures requester.Some? ==> status == Ok && text == ShoppingList.Report(CartItems(db.Snapshot(), order))
  {
    if requester.None? {
      return NotAuthenticated, "";
    }
    status := Ok;
    text := ShoppingList.BuildShoppingList(CartItems(db.Snapshot(), order));
  }
}
