/** The database the views and serializers read and write: one field per table, plus the
    primary-key sequence of recipes. Its abstract value is a `Schema.Db`. */
module Store {
  import opened UsersModels
  import opened RecipesModels
  import opened Schema

  class Database {
    var users: map<UserId, User>
    var ingredients: map<IngredientId, Ingredient>
    var tags: map<TagId, Tag>
    var recipes: map<RecipeId, Recipe>
    var recipeTags: set<RecipeTag>
    var lines: seq<IngredientLine>
    var favorites: set<Mark>
    var cart: set<Mark>
    var subscriptions: set<Subscription>
    /** The next id the recipe table hands out; ids start at 1 and are never reused. */
    var nextRecipeId: RecipeId

    /** The tables as one value. */
    function Snapshot(): Db
      reads this
    {
      Db(users, ingredients, tags, recipes, recipeTags, lines, favorites, cart, subscriptions)
    }

    /** The schema's integrity, and every recipe id below the next one to be handed out. */
    predicate Valid()
      reads this
    {
      && ValidDb(Snapshot())
      && nextRecipeId >= 1
      && (forall k :: k in recipes ==> 1 <= k < nextRecipeId)
    }

    /** A database holding the given users and catalogues and no recipes yet. */
    constructor (users: map<UserId, User>, ingredients: map<IngredientId, Ingredient>, tags: map<TagId, Tag>)
      requires ValidUsers(users) && ValidIngredients(ingredients) && ValidTags(tags)
      ensures Valid() && nextRecipeId == 1
      ensures Snapshot() == Db(users, ingredients, tags, map[], {}, [], {}, {}, {})
    {
      this.users := users;
      this.ingredients := ingredients;
      this.tags := tags;
      this.recipes := map[];
      this.recipeTags := {};
      this.lines := [];
      this.favorites := {};
      this.cart := {};
      this.subscriptions := {};
      this.nextRecipeId := 1;
    }
  }
}
