/** The whole relational state as one value, the integrity it must keep (field bounds,
    uniqueness, foreign keys), and the `on_delete=CASCADE` rules of
    backend/recipes/models.py and backend/users/models.py. */
module Schema {
  import opened UsersModels
  import opened RecipesModels

  /** One value per table. Ingredient lines are kept in primary-key order, which is the
      order in which `recipe.ingredients_amout.all()` yields them. */
  datatype Db = Db(
    users: map<UserId, User>,
    ingredients: map<IngredientId, Ingredient>,
    tags: map<TagId, Tag>,
    recipes: map<RecipeId, Recipe>,
    recipeTags: set<RecipeTag>,
    lines: seq<IngredientLine>,
    favorites: set<Mark>,
    cart: set<Mark>,
    subscriptions: set<Subscription>)

  predicate RecipesValid(d: Db) {
    forall k :: k in d.recipes ==>
      d.recipes[k].id == k && ValidRecipe(d.recipes[k]) && d.recipes[k].author in d.users
  }

  predicate RecipeTagsValid(d: Db) {
    forall t :: t in d.recipeTags ==> t.recipe in d.recipes && t.tag in d.tags
  }

  /** Every line points at an existing recipe and ingredient, has an amount in range,
      and no recipe lists an ingredient twice. */
  predicate LinesValid(d: Db) {
    && (forall i :: 0 <= i < |d.lines| ==>
          d.lines[i].recipe in d.recipes && d.lines[i].ingredient in d.ingredients &&
          ValidAmount(d.lines[i].amount))
    && LinesUnique(d.lines)
  }

  predicate MarksValid(d: Db, marks: set<Mark>) {
    forall m :: m in marks ==> m.recipe in d.recipes && m.user in d.users
  }

  predicate SubscriptionsValid(d: Db) {
    forall s :: s in d.subscriptions ==> s.subscriber in d.users && s.author in d.users
  }

  /** The integrity the schema declares. The uniqueness of (recipe, user) in the favorite and
      cart tables and of (subscriber, author) in the subscription table holds by their being sets. */
  predicate ValidDb(d: Db) {
    && ValidUsers(d.users) && ValidIngredients(d.ingredients) && ValidTags(d.tags)
    && RecipesValid(d) && RecipeTagsValid(d) && LinesValid(d)
    && MarksValid(d, d.favorites) && MarksValid(d, d.cart) && SubscriptionsValid(d)
  }

  /** The lines of recipe `r`, in table order. */
  function LinesOf(lines: seq<IngredientLine>, r: RecipeId): (out: seq<IngredientLine>)
    ensures forall l :: l in out <==> l in lines && l.recipe == r
  {
    if |lines| == 0 then []
    else LinesOf(lines[..|lines| - 1], r) + (if lines[|lines| - 1].recipe == r then [lines[|lines| - 1]] else [])
  }

  /** The lines that survive deleting the recipes in `gone`, in table order. */
  function KeepLines(lines: seq<IngredientLine>, gone: set<RecipeId>): (out: seq<IngredientLine>)
    ensures forall l :: l in out <==> l in lines && l.recipe !in gone
  {
    if |lines| == 0 then []
    else KeepLines(lines[..|lines| - 1], gone) + (if lines[|lines| - 1].recipe in gone then [] else [lines[|lines| - 1]])
  }

  lemma {:induction false} LinesOfAppend(a: seq<IngredientLine>, b: seq<IngredientLine>, r: RecipeId)
    ensures LinesOf(a + b, r) == LinesOf(a, r) + LinesOf(b, r)
    decreases |b|
  {
    if |b| == 0 {
      assert a + b == a;
    } else {
      var b' := b[..|b| - 1];
      assert (a + b)[..|a + b| - 1] == a + b';
      LinesOfAppend(a, b', r);
    }
  }

  /** Deleting other recipes leaves the lines of `r` as they were; deleting `r` leaves it none. */
  lemma {:induction false} LinesOfKeepLines(lines: seq<IngredientLine>, gone: set<RecipeId>, r: RecipeId)
    ensures LinesOf(KeepLines(lines, gone), r) == if r in gone then [] else LinesOf(lines, r)
    decreases |lines|
  {
    if |lines| > 0 {
      var init, last := lines[..|lines| - 1], lines[|lines| - 1];
      LinesOfKeepLines(init, gone, r);
      var tail := if last.recipe in gone then [] else [last];
      LinesOfAppend(KeepLines(init, gone), tail, r);
    }
  }

  /** Keeping a subsequence keeps the lines unique. */
  lemma {:induction false} KeepLinesUnique(lines: seq<IngredientLine>, gone: set<RecipeId>)
    requires LinesUnique(lines)
    ensures LinesUnique(KeepLines(lines, gone))
    decreases |lines|
  {
    if |lines| > 0 {
      var init, last := lines[..|lines| - 1], lines[|lines| - 1];
      LinesUniqueSnoc(init, last);
      KeepLinesUnique(init, gone);
      if last.recipe !in gone {
        var kept := KeepLines(init, gone);
        forall k | 0 <= k < |kept| ensures LineKey(kept[k]) != LineKey(last) {
          assert kept[k] in init;
        }
        LinesUniqueSnoc(kept, last);
      }
    }
  }

  /** Deleting the recipes in `gone`: the recipe rows, and by cascade their tag links,
      ingredient lines, favorite rows and cart rows. Catalogues and users are untouched. */
  function DeleteRecipes(d: Db, gone: set<RecipeId>): Db {
    d.(recipes := (map k | k in d.recipes && k !in gone :: d.recipes[k]),
       recipeTags := (set t | t in d.recipeTags && t.recipe !in gone),
       lines := KeepLines(d.lines, gone),
       favorites := (set m | m in d.favorites && m.recipe !in gone),
       cart := (set m | m in d.cart && m.recipe !in gone))
  }

  /** `recipe.delete()`. */
  function DeleteRecipe(d: Db, r: RecipeId): Db {
    DeleteRecipes(d, {r})
  }

  /** The recipes of `u`, which the `author` foreign key deletes with `u`. */
  function RecipesBy(d: Db, u: UserId): set<RecipeId> {
    set k | k in d.recipes && d.recipes[k].author == u
  }

  /** `user.delete()`: the user, its recipes (with their own cascades), its favorite and cart
      rows, and every subscription where it is the subscriber or the author. */
  function DeleteUser(d: Db, u: UserId): Db {
    var e := DeleteRecipes(d, RecipesBy(d, u));
    e.(users := (map k | k in e.users && k != u :: e.users[k]),
       favorites := (set m | m in e.favorites && m.user != u),
       cart := (set m | m in e.cart && m.user != u),
       subscriptions := (set s | s in e.subscriptions && s.subscriber != u && s.author != u))
  }

  lemma DeleteRecipesKeepsValid(d: Db, gone: set<RecipeId>)
    requires ValidDb(d)
    ensures ValidDb(DeleteRecipes(d, gone))
  {
    var e := DeleteRecipes(d, gone);
    KeepLinesUnique(d.lines, gone);
    forall i | 0 <= i < |e.lines|
      ensures e.lines[i].recipe in e.recipes && e.lines[i].ingredient in e.ingredients && ValidAmount(e.lines[i].amount)
    {
      assert e.lines[i] in d.lines;
    }
  }

  /** Deleting a recipe keeps the database valid, removes every row that points at it, and
      leaves the catalogues, the users and every other recipe's lines and marks as they were. */
  lemma DeleteRecipeCascade(d: Db, r: RecipeId)
    requires ValidDb(d)
    ensures var e := DeleteRecipe(d, r);
      && ValidDb(e)
      && e.ingredients == d.ingredients && e.tags == d.tags && e.users == d.users
      && e.subscriptions == d.subscriptions
      && r !in e.recipes && LinesOf(e.lines, r) == []
      && e.recipes.Keys == d.recipes.Keys - {r}
      && (forall t :: t in e.recipeTags ==> t.recipe != r)
      && (forall t: RecipeTag :: t.recipe != r ==> (t in e.recipeTags <==> t in d.recipeTags))
      && (forall m :: m in e.favorites ==> m.recipe != r)
      && (forall m :: m in e.cart ==> m.recipe != r)
      && (forall k :: k in d.recipes && k != r ==> k in e.recipes && e.recipes[k] == d.recipes[k])
      && (forall k :: k != r ==> LinesOf(e.lines, k) == LinesOf(d.lines, k))
      && (forall m: Mark :: m.recipe != r ==> (m in e.favorites <==> m in d.favorites) && (m in e.cart <==> m in d.cart))
  {
    DeleteRecipesKeepsValid(d, {r});
    LinesOfKeepLines(d.lines, {r}, r);
    forall k | k != r ensures LinesOf(DeleteRecipe(d, r).lines, k) == LinesOf(d.lines, k) {
      LinesOfKeepLines(d.lines, {r}, k);
    }
  }

  /** Deleting a user keeps the database valid and leaves no subscription, recipe or mark of
      that user, while the ingredient and tag catalogues, the other users, the other authors'
      recipes with their lines and tag links, and the other users' marks on those recipes stay
      as they were. */
  lemma DeleteUserCascade(d: Db, u: UserId)
    requires ValidDb(d)
    ensures var e := DeleteUser(d, u);
      && ValidDb(e)
      && u !in e.users
      && e.ingredients == d.ingredients && e.tags == d.tags
      && (forall s :: s in e.subscriptions <==> s in d.subscriptions && s.subscriber != u && s.author != u)
      && (forall k :: k in e.recipes ==> e.recipes[k].author != u)
      && (forall m :: m in e.favorites ==> m.user != u)
      && (forall m :: m in e.cart ==> m.user != u)
    ensures DeleteUserKeepsOthers(d, u, DeleteUser(d, u))
  {
    DeleteUserValid(d, u);
    DeleteUserFrame(d, u);
  }

  /** What deleting user `u` leaves in place: every other user, every recipe by another author
      with its lines and tag links, and every mark of another user on such a recipe. */
  ghost predicate DeleteUserKeepsOthers(d: Db, u: UserId, e: Db) {
    && (forall v :: v in d.users && v != u ==> v in e.users && e.users[v] == d.users[v])
    && (forall k :: k in d.recipes && d.recipes[k].author != u ==>
          k in e.recipes && e.recipes[k] == d.recipes[k] && LinesOf(e.lines, k) == LinesOf(d.lines, k))
    && (forall t: RecipeTag :: t.recipe in d.recipes && d.recipes[t.recipe].author != u ==>
          (t in e.recipeTags <==> t in d.recipeTags))
    && (forall m: Mark :: m.user != u && m.recipe in d.recipes && d.recipes[m.recipe].author != u ==>
          (m in e.favorites <==> m in d.favorites) && (m in e.cart <==> m in d.cart))
  }

  lemma DeleteUserFrame(d: Db, u: UserId)
    ensures DeleteUserKeepsOthers(d, u, DeleteUser(d, u))
  {
    var gone := RecipesBy(d, u);
    var e := DeleteUser(d, u);
    forall k | k in d.recipes && d.recipes[k].author != u
      ensures LinesOf(e.lines, k) == LinesOf(d.lines, k)
    {
      LinesOfKeepLines(d.lines, gone, k);
    }
  }

  lemma DeleteUserValid(d: Db, u: UserId)
    requires ValidDb(d)
    ensures ValidDb(DeleteUser(d, u))
  {
    var gone := RecipesBy(d, u);
    DeleteRecipesKeepsValid(d, gone);
    var e := DeleteUser(d, u);
    var c := DeleteRecipes(d, gone);
    assert e.lines == c.lines;
    forall a, b | a in e.users && b in e.users && a != b
      ensures e.users[a].username != e.users[b].username && e.users[a].email != e.users[b].email
    {
      assert a in c.users && b in c.users;
    }
    assert RecipesValid(e);
    assert LinesValid(e) by {
      forall i | 0 <= i < |e.lines|
        ensures e.lines[i].recipe in e.recipes && e.lines[i].ingredient in e.ingredients
      {
        assert e.lines[i] in d.lines;
      }
    }
  }
}
