/** The catalogue, recipe and relation rows of backend/recipes/models.py, with the field
    bounds and uniqueness constraints the schema declares. */
module RecipesModels {
  import opened UsersModels

  // Column lengths. Their values live in foodgram/constants.py, which is not part of this model.
  const IngredientNameLength: nat := 128
  const MeasurementUnitLength: nat := 64
  const TagNameLength: nat := 32
  const TagSlugLength: nat := 32
  const RecipeNameLength: nat := 256

  /** `cooking_time`: a positive small integer between 1 and 32767 minutes. */
  const MinCookingTime: int := 1
  const MaxCookingTime: int := 32767

  /** `amount`: at least 1, and a positive small integer, so at most 32767. */
  const MinAmount: int := 1
  const MaxAmount: int := 32767

  type IngredientId = nat
  type TagId = nat
  type RecipeId = nat

  datatype Ingredient = Ingredient(id: IngredientId, name: string, measurementUnit: string)

  datatype Tag = Tag(id: TagId, name: string, slug: string)

  /** The scalar columns of a recipe; its tags and ingredient lines are rows of their own tables. */
  datatype Recipe = Recipe(
    id: RecipeId,
    name: string,
    text: string,
    cookingTime: int,
    author: UserId,
    image: string)

  /** An `IngredientRecipe` row: `amount` of `ingredient` in `recipe`. */
  datatype IngredientLine = IngredientLine(recipe: RecipeId, ingredient: IngredientId, amount: int)

  /** A row of the many-to-many table between recipes and tags. */
  datatype RecipeTag = RecipeTag(recipe: RecipeId, tag: TagId)

  /** A `FavoriteRecipe` or `ShoppingCart` row (both are `BaseRecipeRelation`). */
  datatype Mark = Mark(recipe: RecipeId, user: UserId)

  predicate ValidCookingTime(t: int) {
    MinCookingTime <= t <= MaxCookingTime
  }

  predicate ValidAmount(a: int) {
    MinAmount <= a <= MaxAmount
  }

  predicate ValidIngredient(i: Ingredient) {
    |i.name| <= IngredientNameLength && |i.measurementUnit| <= MeasurementUnitLength
  }

  predicate ValidTag(t: Tag) {
    |t.name| <= TagNameLength && |t.slug| <= TagSlugLength
  }

  predicate ValidRecipe(r: Recipe) {
    |r.name| <= RecipeNameLength && ValidCookingTime(r.cookingTime)
  }

  /** `Unique_ingredient`: no two ingredients share both name and measurement unit. */
  predicate IngredientsUnique(m: map<IngredientId, Ingredient>) {
    forall a, b :: a in m && b in m && a != b ==>
      (m[a].name, m[a].measurementUnit) != (m[b].name, m[b].measurementUnit)
  }

  /** `unique=True` on both tag columns: no two tags share a name, nor a slug. */
  predicate TagsUnique(m: map<TagId, Tag>) {
    forall a, b :: a in m && b in m && a != b ==> m[a].name != m[b].name && m[a].slug != m[b].slug
  }

  /** The key of `Unique_ingredient_amount`. */
  function LineKey(l: IngredientLine): (RecipeId, IngredientId) {
    (l.recipe, l.ingredient)
  }

  /** `Unique_ingredient_amount`: an ingredient appears at most once per recipe. */
  predicate LinesUnique(lines: seq<IngredientLine>) {
    forall i, j :: 0 <= i < j < |lines| ==> LineKey(lines[i]) != LineKey(lines[j])
  }

  /** The ingredient catalogue: keyed by id, within bounds, unique (name, unit). */
  predicate ValidIngredients(m: map<IngredientId, Ingredient>) {
    (forall k :: k in m ==> m[k].id == k && ValidIngredient(m[k])) && IngredientsUnique(m)
  }

  /** The tag catalogue: keyed by id, within bounds, unique names and slugs. */
  predicate ValidTags(m: map<TagId, Tag>) {
    (forall k :: k in m ==> m[k].id == k && ValidTag(m[k])) && TagsUnique(m)
  }

  /** Appending a line keeps the lines unique exactly when its key is new. */
  lemma {:induction false} LinesUniqueSnoc(lines: seq<IngredientLine>, l: IngredientLine)
    ensures LinesUnique(lines + [l]) <==>
      LinesUnique(lines) && forall k :: 0 <= k < |lines| ==> LineKey(lines[k]) != LineKey(l)
  {
    var s := lines + [l];
    if LinesUnique(s) {
      forall i, j | 0 <= i < j < |lines| ensures LineKey(lines[i]) != LineKey(lines[j]) {
        assert s[i] == lines[i] && s[j] == lines[j];
      }
      forall k | 0 <= k < |lines| ensures LineKey(lines[k]) != LineKey(l) {
        assert s[k] == lines[k] && s[|lines|] == l;
      }
    }
  }
}
