/** The write side of the recipe API (`RecipeCreateUpdateSerializer`): checking a submitted
    recipe field by field and then as a whole, and writing the recipe together with its tags
    and ingredient lines in one step. Also the subscription check and the paged recipe list of
    a subscription. */
module Serializers {
  import opened Wrappers
  import opened UsersModels
  import opened RecipesModels
  import opened Schema
  import Decimal

  // ---- Duplicates, as `len(ids) != len(set(ids))` finds them ----

  function Elements<T(==)>(s: seq<T>): set<T> {
    set x | x in s
  }

  /** The check the validators write: the list is longer than the set of its elements. */
  predicate HasDuplicates<T(==)>(s: seq<T>) {
    |Elements(s)| != |s|
  }

  predicate Distinct<T(==)>(s: seq<T>) {
    forall i, j :: 0 <= i < j < |s| ==> s[i] != s[j]
  }

  /** The cardinality test finds a repeated element exactly when there is one. */
  lemma {:induction false} NoDuplicatesIffDistinct<T>(s: seq<T>)
    ensures |Elements(s)| <= |s|
    ensures !HasDuplicates(s) <==> Distinct(s)
  {
    if |s| > 0 {
      var init, x := s[..|s| - 1], s[|s| - 1];
      assert s == init + [x];
      NoDuplicatesIffDistinct(init);
      assert Elements(s) == Elements(init) + {x};
      if x in init {
        var k :| 0 <= k < |init| && init[k] == x;
        assert s[k] == s[|s| - 1];
        assert Elements(s) == Elements(init);
      } else {
        if Distinct(init) {
          forall i, j | 0 <= i < j < |s| ensures s[i] != s[j] {
            if j < |init| {
              assert s[i] == init[i] && s[j] == init[j];
            } else {
              assert s[i] == init[i];
            }
          }
        } else {
          var i, j :| 0 <= i < j < |init| && init[i] == init[j];
          assert s[i] == s[j];
        }
      }
    }
  }

  // ---- The submitted recipe ----

  /** One entry of `ingredients`: `{"id": ..., "amount": ...}`, either key possibly absent. */
  datatype IngredientItem = IngredientItem(id: Option<int>, amount: Option<int>)

  /** The request body; an absent key is `None`. The image is kept as its encoded text. */
  datatype Payload = Payload(
    ingredients: Option<seq<IngredientItem>>,
    tags: Option<seq<int>>,
    image: Option<string>,
    name: Option<string>,
    text: Option<string>,
    cookingTime: Option<int>)

  /** The serializer's fields, in declaration order: errors are reported in this order. */
  datatype Field = IngredientsField | TagsField | ImageField | NameField | TextField | CookingTimeField

  datatype Reason =
    | Required      // the key is absent from a full (non-partial) payload
    | Blank         // an empty string
    | TooLong
    | OutOfRange
    | InvalidItem   // an ingredient entry with a missing or unknown id or a bad amount
    | UnknownTag
    | Duplicates
    | Empty

  /** One resolved ingredient entry. */
  datatype IngredientAmount = IngredientAmount(ingredient: IngredientId, amount: int)

  /** `validated_data`. Ingredients and tags are always present once `validate` has passed;
      the scalar fields may be absent from a partial update. */
  datatype RecipeData = RecipeData(
    ingredients: seq<IngredientAmount>,
    tags: seq<TagId>,
    image: Option<string>,
    name: Option<string>,
    text: Option<string>,
    cookingTime: Option<int>)

  datatype Validation =
    | FieldErrors(errors: seq<(Field, Reason)>)
    | NonFieldError(missing: Field)   // raised by `validate`
    | Validated(data: RecipeData)

  /** An entry the nested serializer accepts: the id names an existing ingredient and the
      amount is a positive small integer of at least 1. */
  predicate ItemOk(item: IngredientItem, catalogue: map<IngredientId, Ingredient>) {
    && item.id.Some? && item.id.value >= 0 && item.id.value in catalogue
    && item.amount.Some? && ValidAmount(item.amount.value)
  }

  function ItemIds(items: seq<IngredientItem>): (ids: seq<int>)
    requires forall i :: 0 <= i < |items| ==> items[i].id.Some?
    ensures |ids| == |items| && forall i :: 0 <= i < |items| ==> ids[i] == items[i].id.value
  {
    if |items| == 0 then [] else ItemIds(items[..|items| - 1]) + [items[|items| - 1].id.value]
  }

  /** The `ingredients` field: each entry first, then `validate_ingredients`, which looks for
      repeated ids before it looks for an empty list. */
  function IngredientsError(items: seq<IngredientItem>, catalogue: map<IngredientId, Ingredient>): (r: Option<Reason>)
    ensures r == Some(InvalidItem) <==> exists i :: 0 <= i < |items| && !ItemOk(items[i], catalogue)
    ensures r == Some(Duplicates) <==>
      (forall i :: 0 <= i < |items| ==> ItemOk(items[i], catalogue)) &&
      exists i, j :: 0 <= i < j < |items| && items[i].id == items[j].id
    ensures r == Some(Empty) <==> items == []
    ensures r.None? <==>
      && items != []
      && (forall i :: 0 <= i < |items| ==> ItemOk(items[i], catalogue))
      && (forall i, j :: 0 <= i < j < |items| ==> items[i].id != items[j].id)
  {
    if exists i :: 0 <= i < |items| && !ItemOk(items[i], catalogue) then Some(InvalidItem)
    else
      var ids := ItemIds(items);
      NoDuplicatesIffDistinct(ids);
      assert Distinct(ids) <==> forall i, j :: 0 <= i < j < |items| ==> items[i].id != items[j].id;
      if HasDuplicates(ids) then Some(Duplicates)
      else if |items| == 0 then Some(Empty)
      else None
  }

  /** The `tags` field: every id must name a tag, then `validate_tags`, which looks for an
      empty list before it looks for repeated tags. */
  function TagsError(ids: seq<int>, catalogue: map<TagId, Tag>): (r: Option<Reason>)
    ensures r == Some(UnknownTag) <==> exists i :: 0 <= i < |ids| && !(ids[i] >= 0 && ids[i] in catalogue)
    ensures r == Some(Empty) <==> ids == []
    ensures r == Some(Duplicates) <==>
      (forall i :: 0 <= i < |ids| ==> ids[i] >= 0 && ids[i] in catalogue) && ids != [] && !Distinct(ids)
    ensures r.None? <==>
      ids != [] && (forall i :: 0 <= i < |ids| ==> ids[i] >= 0 && ids[i] in catalogue) && Distinct(ids)
  {
    NoDuplicatesIffDistinct(ids);
    if exists i :: 0 <= i < |ids| && !(ids[i] >= 0 && ids[i] in catalogue) then Some(UnknownTag)
    else if |ids| == 0 then Some(Empty)
    else if HasDuplicates(ids) then Some(Duplicates)
    else None
  }

  /** `name`: not blank, at most 256 characters. */
  function NameError(name: string): (r: Option<Reason>)
    ensures r.None? <==> 1 <= |name| <= RecipeNameLength
  {
    if |name| == 0 then Some(Blank) else if |name| > RecipeNameLength then Some(TooLong) else None
  }

  /** `text`: not blank. */
  function TextError(text: string): (r: Option<Reason>)
    ensures r.None? <==> |text| > 0
  {
    if |text| == 0 then Some(Blank) else None
  }

  /** `cooking_time`: between 1 and 32767. */
  function CookingTimeError(t: int): (r: Option<Reason>)
    ensures r.None? <==> ValidCookingTime(t)
  {
    if ValidCookingTime(t) then None else Some(OutOfRange)
  }

  /** The error list entry of one field: a missing key is an error unless the update is
      partial; a present value contributes its own error, if any. */
  function Check(field: Field, present: bool, partial: bool, err: Option<Reason>): (es: seq<(Field, Reason)>)
    ensures es == [] <==> (present && err.None?) || (!present && partial)
    ensures !present && !partial ==> es == [(field, Required)]
  {
    if !present then (if partial then [] else [(field, Required)])
    else if err.Some? then [(field, err.value)]
    else []
  }

  /** The field errors of a payload, in field order. */
  function Errors(p: Payload, partial: bool, ic: map<IngredientId, Ingredient>, tc: map<TagId, Tag>): seq<(Field, Reason)> {
    Check(IngredientsField, p.ingredients.Some?, partial,
      if p.ingredients.Some? then IngredientsError(p.ingredients.value, ic) else None)
    + Check(TagsField, p.tags.Some?, partial, if p.tags.Some? then TagsError(p.tags.value, tc) else None)
    + Check(ImageField, p.image.Some?, partial, None)
    + Check(NameField, p.name.Some?, partial, if p.name.Some? then NameError(p.name.value) else None)
    + Check(TextField, p.text.Some?, partial, if p.text.Some? then TextError(p.text.value) else None)
    + Check(CookingTimeField, p.cookingTime.Some?, partial,
      if p.cookingTime.Some? then CookingTimeError(p.cookingTime.value) else None)
  }

  function ToAmounts(items: seq<IngredientItem>, catalogue: map<IngredientId, Ingredient>): (out: seq<IngredientAmount>)
    requires forall i :: 0 <= i < |items| ==> ItemOk(items[i], catalogue)
    ensures |out| == |items|
    ensures forall i :: 0 <= i < |items| ==>
      ItemOk(items[i], catalogue) && out[i] == IngredientAmount(items[i].id.value, items[i].amount.value)
  {
    if |items| == 0 then []
    else
      var it := items[|items| - 1];
      assert ItemOk(it, catalogue);
      ToAmounts(items[..|items| - 1], catalogue) + [IngredientAmount(it.id.value, it.amount.value)]
  }

  function ToTagIds(ids: seq<int>): (out: seq<TagId>)
    requires forall i :: 0 <= i < |ids| ==> ids[i] >= 0
    ensures out == ids
  {
    if |ids| == 0 then [] else ToTagIds(ids[..|ids| - 1]) + [ids[|ids| - 1]]
  }

  /** What validated data is: resolvable, non-empty, repetition-free ingredients and tags,
      amounts and scalar fields within their bounds, and every scalar field present unless
      the update is partial. */
  predicate WellFormed(data: RecipeData, partial: bool, ic: map<IngredientId, Ingredient>, tc: map<TagId, Tag>) {
    && data.ingredients != [] && data.tags != []
    && (forall i :: 0 <= i < |data.ingredients| ==>
          data.ingredients[i].ingredient in ic && ValidAmount(data.ingredients[i].amount))
    && (forall i, j :: 0 <= i < j < |data.ingredients| ==>
          data.ingredients[i].ingredient != data.ingredients[j].ingredient)
    && (forall i :: 0 <= i < |data.tags| ==> data.tags[i] in tc)
    && Distinct(data.tags)
    && (data.name.Some? ==> 1 <= |data.name.value| <= RecipeNameLength)
    && (data.text.Some? ==> |data.text.value| > 0)
    && (data.cookingTime.Some? ==> ValidCookingTime(data.cookingTime.value))
    && (!partial ==> data.image.Some? && data.name.Some? && data.text.Some? && data.cookingTime.Some?)
  }

  /** `serializer.is_valid()`: the fields are checked one by one and all their errors
      reported together; only when there are none does `validate` run, which insists on
      `ingredients` and then on `tags` even in a partial update. */
  function Validate(p: Payload, partial: bool, ic: map<IngredientId, Ingredient>, tc: map<TagId, Tag>): (v: Validation)
    ensures v.FieldErrors? <==> Errors(p, partial, ic, tc) != []
    ensures v.FieldErrors? ==> v.errors != []
    ensures v.NonFieldError? ==> partial
    ensures v.NonFieldError? ==> (v.missing == IngredientsField <==> p.ingredients.None?)
    ensures v.Validated? ==> WellFormed(v.data, partial, ic, tc)
    ensures v.Validated? ==>
      && p.ingredients.Some? && p.tags.Some?
      && v.data.tags == p.tags.value
      && |v.data.ingredients| == |p.ingredients.value|
      && (forall i :: 0 <= i < |v.data.ingredients| ==>
            Some(v.data.ingredients[i].ingredient as int) == p.ingredients.value[i].id &&
            Some(v.data.ingredients[i].amount) == p.ingredients.value[i].amount)
      && v.data.image == p.image && v.data.name == p.name && v.data.text == p.text
      && v.data.cookingTime == p.cookingTime
  {
    var errs := Errors(p, partial, ic, tc);
    if errs != [] then FieldErrors(errs)
    else if p.ingredients.None? then NonFieldError(IngredientsField)
    else if p.tags.None? then NonFieldError(TagsField)
    else
      var items, ids := p.ingredients.value, p.tags.value;
      NoFieldErrors(p, partial, ic, tc);
      var amounts := ToAmounts(items, ic);
      ToAmountsDistinct(items, ic);
      Validated(RecipeData(amounts, ToTagIds(ids), p.image, p.name, p.text, p.cookingTime))
  }

  /** An empty error list means every field sent passed its own check, and every field
      missing was allowed to be by a partial update. */
  lemma NoFieldErrors(p: Payload, partial: bool, ic: map<IngredientId, Ingredient>, tc: map<TagId, Tag>)
    requires Errors(p, partial, ic, tc) == []
    ensures p.ingredients.Some? ==> IngredientsError(p.ingredients.value, ic).None?
    ensures p.tags.Some? ==> TagsError(p.tags.value, tc).None?
    ensures p.name.Some? ==> NameError(p.name.value).None?
    ensures p.text.Some? ==> TextError(p.text.value).None?
    ensures p.cookingTime.Some? ==> CookingTimeError(p.cookingTime.value).None?
    ensures !partial ==>
      p.ingredients.Some? && p.tags.Some? && p.image.Some? && p.name.Some? && p.text.Some? && p.cookingTime.Some?
  {
  }

  /** Entries with distinct ids become amounts with distinct ingredients. */
  lemma ToAmountsDistinct(items: seq<IngredientItem>, ic: map<IngredientId, Ingredient>)
    requires forall i :: 0 <= i < |items| ==> ItemOk(items[i], ic)
    requires forall i, j :: 0 <= i < j < |items| ==> items[i].id != items[j].id
    ensures var amounts := ToAmounts(items, ic);
      forall i, j :: 0 <= i < j < |amounts| ==> amounts[i].ingredient != amounts[j].ingredient
  {
    var amounts := ToAmounts(items, ic);
    forall i, j | 0 <= i < j < |amounts| ensures amounts[i].ingredient != amounts[j].ingredient {
      assert items[i].id != items[j].id;
    }
  }

  /** The acceptance rule stated on its own: which payloads the serializer lets through. */
  predicate Acceptable(p: Payload, partial: bool, ic: map<IngredientId, Ingredient>, tc: map<TagId, Tag>) {
    && p.ingredients.Some? && p.tags.Some?
    && p.ingredients.value != []
    && (forall i :: 0 <= i < |p.ingredients.value| ==> ItemOk(p.ingredients.value[i], ic))
    && (forall i, j :: 0 <= i < j < |p.ingredients.value| ==>
          p.ingredients.value[i].id != p.ingredients.value[j].id)
    && p.tags.value != []
    && (forall i :: 0 <= i < |p.tags.value| ==> p.tags.value[i] >= 0 && p.tags.value[i] in tc)
    && Distinct(p.tags.value)
    && (p.image.Some? || partial)
    && (p.name.Some? ==> 1 <= |p.name.value| <= RecipeNameLength) && (p.name.Some? || partial)
    && (p.text.Some? ==> |p.text.value| > 0) && (p.text.Some? || partial)
    && (p.cookingTime.Some? ==> ValidCookingTime(p.cookingTime.value)) && (p.cookingTime.Some? || partial)
  }

  /** The serializer accepts a payload exactly when it meets the rule above. */
  lemma ValidateAccepts(p: Payload, partial: bool, ic: map<IngredientId, Ingredient>, tc: map<TagId, Tag>)
    ensures Validate(p, partial, ic, tc).Validated? <==> Acceptable(p, partial, ic, tc)
  {
    var errs := Errors(p, partial, ic, tc);
    var c1 := Check(IngredientsField, p.ingredients.Some?, partial,
      if p.ingredients.Some? then IngredientsError(p.ingredients.value, ic) else None);
    var c2 := Check(TagsField, p.tags.Some?, partial, if p.tags.Some? then TagsError(p.tags.value, tc) else None);
    var c3 := Check(ImageField, p.image.Some?, partial, None);
    var c4 := Check(NameField, p.name.Some?, partial, if p.name.Some? then NameError(p.name.value) else None);
    var c5 := Check(TextField, p.text.Some?, partial, if p.text.Some? then TextError(p.text.value) else None);
    var c6 := Check(CookingTimeField, p.cookingTime.Some?, partial,
      if p.cookingTime.Some? then CookingTimeError(p.cookingTime.value) else None);
    assert errs == c1 + c2 + c3 + c4 + c5 + c6;
    assert errs == [] <==> c1 == [] && c2 == [] && c3 == [] && c4 == [] && c5 == [] && c6 == [];
  }

  /** A partial update without `ingredients`, or without `tags`, is refused whatever else it
      holds. */
  lemma PartialUpdateNeedsIngredientsAndTags(p: Payload, ic: map<IngredientId, Ingredient>, tc: map<TagId, Tag>)
    requires p.ingredients.None? || p.tags.None?
    ensures !Validate(p, true, ic, tc).Validated?
    ensures !Validate(p, false, ic, tc).Validated?
  {
  }

  // ---- Writing the recipe ----

  /** `create_ingredients`: one line per entry, for recipe `recipe`. */
  function NewLines(recipe: RecipeId, amounts: seq<IngredientAmount>): (out: seq<IngredientLine>)
    ensures |out| == |amounts|
    ensures forall i :: 0 <= i < |amounts| ==>
      out[i] == IngredientLine(recipe, amounts[i].ingredient, amounts[i].amount)
  {
    if |amounts| == 0 then []
    else
      var a := amounts[|amounts| - 1];
      NewLines(recipe, amounts[..|amounts| - 1]) + [IngredientLine(recipe, a.ingredient, a.amount)]
  }

  /** `recipe.tags.set(tags)`'s rows for recipe `recipe`. */
  function TagRows(recipe: RecipeId, tags: seq<TagId>): set<RecipeTag> {
    set t | t in tags :: RecipeTag(recipe, t)
  }

  /** The tags recipe `r` carries. */
  function TagsOf(d: Db, r: RecipeId): set<TagId> {
    set t | t in d.recipeTags && t.recipe == r :: t.tag
  }

  /** `create`: the recipe row with the requester as author, its tag rows and one ingredient
      line per entry. */
  function CreateSpec(d: Db, id: RecipeId, author: UserId, data: RecipeData): Db
    requires data.image.Some? && data.name.Some? && data.text.Some? && data.cookingTime.Some?
  {
    var r := Recipe(id, data.name.value, data.text.value, data.cookingTime.value, author, data.image.value);
    d.(recipes := d.recipes[id := r],
       recipeTags := d.recipeTags + TagRows(id, data.tags),
       lines := d.lines + NewLines(id, data.ingredients))
  }

  /** `update`: the scalar fields given overwrite the old ones, the tag set is replaced by the
      submitted tags, and every old ingredient line of the recipe is dropped before the new
      lines are added. */
  function UpdateSpec(d: Db, pk: RecipeId, data: RecipeData): Db
    requires pk in d.recipes
  {
    var was := d.recipes[pk];
    var r := Recipe(pk, data.name.GetOr(was.name), data.text.GetOr(was.text),
      data.cookingTime.GetOr(was.cookingTime), was.author, data.image.GetOr(was.image));
    d.(recipes := d.recipes[pk := r],
       recipeTags := (set t | t in d.recipeTags && t.recipe != pk) + TagRows(pk, data.tags),
       lines := KeepLines(d.lines, {pk}) + NewLines(pk, data.ingredients))
  }

  lemma {:induction false} LinesOfNewLines(recipe: RecipeId, amounts: seq<IngredientAmount>, k: RecipeId)
    ensures LinesOf(NewLines(recipe, amounts), k) == if k == recipe then NewLines(recipe, amounts) else []
  {
    if |amounts| > 0 {
      var init := amounts[..|amounts| - 1];
      var a := amounts[|amounts| - 1];
      LinesOfNewLines(recipe, init, k);
      var nl := NewLines(recipe, amounts);
      assert nl[..|nl| - 1] == NewLines(recipe, init);
    }
  }

  /** Two unique line lists with no key in common make one unique list. */
  lemma LinesUniqueAppend(a: seq<IngredientLine>, b: seq<IngredientLine>)
    requires LinesUnique(a) && LinesUnique(b)
    requires forall i, j :: 0 <= i < |a| && 0 <= j < |b| ==> LineKey(a[i]) != LineKey(b[j])
    ensures LinesUnique(a + b)
  {
    var s := a + b;
    forall i, j | 0 <= i < j < |s| ensures LineKey(s[i]) != LineKey(s[j]) {
      if j < |a| {
        assert s[i] == a[i] && s[j] == a[j];
      } else if i < |a| {
        assert s[i] == a[i] && s[j] == b[j - |a|];
      } else {
        assert s[i] == b[i - |a|] && s[j] == b[j - |a|];
      }
    }
  }

  lemma NewLinesUnique(recipe: RecipeId, amounts: seq<IngredientAmount>)
    requires forall i, j :: 0 <= i < j < |amounts| ==> amounts[i].ingredient != amounts[j].ingredient
    ensures LinesUnique(NewLines(recipe, amounts))
  {
  }

  /** Writing `data` as recipe `recipe` after the lines `kept`, none of which belongs to it,
      keeps the line table valid. */
  lemma AppendLinesValid(d: Db, kept: seq<IngredientLine>, recipe: RecipeId, data: RecipeData, partial: bool, tc: map<TagId, Tag>)
    requires WellFormed(data, partial, d.ingredients, tc)
    requires LinesUnique(kept) && forall i :: 0 <= i < |kept| ==> kept[i].recipe != recipe
    ensures LinesUnique(kept + NewLines(recipe, data.ingredients))
  {
    var nl := NewLines(recipe, data.ingredients);
    NewLinesUnique(recipe, data.ingredients);
    LinesUniqueAppend(kept, nl);
  }

  /** A new recipe written from validated data keeps the database valid. */
  lemma CreateSpecValid(d: Db, id: RecipeId, author: UserId, data: RecipeData)
    requires ValidDb(d) && id !in d.recipes && author in d.users
    requires WellFormed(data, false, d.ingredients, d.tags)
    ensures ValidDb(CreateSpec(d, id, author, data))
  {
    var e := CreateSpec(d, id, author, data);
    var nl := NewLines(id, data.ingredients);
    assert forall i :: 0 <= i < |d.lines| ==> d.lines[i].recipe != id;
    AppendLinesValid(d, d.lines, id, data, false, d.tags);
    assert LinesValid(e) by {
      forall i | 0 <= i < |e.lines|
        ensures e.lines[i].recipe in e.recipes && e.lines[i].ingredient in e.ingredients && ValidAmount(e.lines[i].amount)
      {
        if i >= |d.lines| {
          assert e.lines[i] == nl[i - |d.lines|];
        } else {
          assert e.lines[i] == d.lines[i];
        }
      }
    }
    assert RecipeTagsValid(e);
    assert RecipesValid(e);
    assert MarksValid(e, e.favorites) && MarksValid(e, e.cart);
  }

  /** The new recipe has the requester as author and carries exactly the submitted tags and
      exactly one line per submitted entry; no other recipe's lines or tags change. */
  lemma CreateSpecContents(d: Db, id: RecipeId, author: UserId, data: RecipeData)
    requires ValidDb(d) && id !in d.recipes
    requires data.image.Some? && data.name.Some? && data.text.Some? && data.cookingTime.Some?
    ensures var e := CreateSpec(d, id, author, data);
      && id in e.recipes && e.recipes[id].author == author
      && e.recipes[id].name == data.name.value && e.recipes[id].cookingTime == data.cookingTime.value
      && e.recipes[id].text == data.text.value && e.recipes[id].image == data.image.value
      && e.recipes.Keys == d.recipes.Keys + {id}
      && (forall k :: k in d.recipes ==> k in e.recipes && e.recipes[k] == d.recipes[k])
      && TagsOf(e, id) == Elements(data.tags)
      && LinesOf(e.lines, id) == NewLines(id, data.ingredients)
      && (forall k :: k != id ==> LinesOf(e.lines, k) == LinesOf(d.lines, k) && TagsOf(e, k) == TagsOf(d, k))
      && e.users == d.users && e.favorites == d.favorites && e.cart == d.cart
  {
    CreateLines(d, id, author, data);
    CreateTags(d, id, author, data);
  }

  lemma CreateLines(d: Db, id: RecipeId, author: UserId, data: RecipeData)
    requires ValidDb(d) && id !in d.recipes
    requires data.image.Some? && data.name.Some? && data.text.Some? && data.cookingTime.Some?
    ensures var e := CreateSpec(d, id, author, data);
      && LinesOf(e.lines, id) == NewLines(id, data.ingredients)
      && forall k :: k != id ==> LinesOf(e.lines, k) == LinesOf(d.lines, k)
  {
    var nl := NewLines(id, data.ingredients);
    assert forall i :: 0 <= i < |d.lines| ==> d.lines[i].recipe != id;
    LinesOfAppend(d.lines, nl, id);
    LinesOfNoRecipe(d.lines, id);
    LinesOfNewLines(id, data.ingredients, id);
    forall k | k != id ensures LinesOf(d.lines + nl, k) == LinesOf(d.lines, k) {
      LinesOfAppend(d.lines, nl, k);
      LinesOfNewLines(id, data.ingredients, k);
    }
  }

  lemma CreateTags(d: Db, id: RecipeId, author: UserId, data: RecipeData)
    requires ValidDb(d) && id !in d.recipes
    requires data.image.Some? && data.name.Some? && data.text.Some? && data.cookingTime.Some?
    ensures var e := CreateSpec(d, id, author, data);
      && TagsOf(e, id) == Elements(data.tags)
      && forall k :: k != id ==> TagsOf(e, k) == TagsOf(d, k)
  {
    var e := CreateSpec(d, id, author, data);
    forall t | t in data.tags ensures t in TagsOf(e, id) {
      assert RecipeTag(id, t) in e.recipeTags;
    }
    forall t | t in TagsOf(e, id) ensures t in data.tags {
      var rt :| rt in e.recipeTags && rt.recipe == id && rt.tag == t;
      assert rt !in d.recipeTags;
    }
  }

  /** A recipe with no lines in a table has none to list. */
  lemma {:induction false} LinesOfNoRecipe(lines: seq<IngredientLine>, r: RecipeId)
    requires forall i :: 0 <= i < |lines| ==> lines[i].recipe != r
    ensures LinesOf(lines, r) == []
  {
    if |lines| > 0 {
      LinesOfNoRecipe(lines[..|lines| - 1], r);
    }
  }

  /** An update from validated data keeps the database valid. */
  lemma UpdateSpecValid(d: Db, pk: RecipeId, data: RecipeData, partial: bool)
    requires ValidDb(d) && pk in d.recipes
    requires WellFormed(data, partial, d.ingredients, d.tags)
    ensures ValidDb(UpdateSpec(d, pk, data))
  {
    var e := UpdateSpec(d, pk, data);
    var kept := KeepLines(d.lines, {pk});
    var nl := NewLines(pk, data.ingredients);
    KeepLinesUnique(d.lines, {pk});
    forall i | 0 <= i < |kept| ensures kept[i].recipe != pk && kept[i] in d.lines {
      assert kept[i] in kept;
    }
    AppendLinesValid(d, kept, pk, data, partial, d.tags);
    assert LinesValid(e) by {
      forall i | 0 <= i < |e.lines|
        ensures e.lines[i].recipe in e.recipes && e.lines[i].ingredient in e.ingredients && ValidAmount(e.lines[i].amount)
      {
        if i >= |kept| {
          assert e.lines[i] == nl[i - |kept|];
        } else {
          assert e.lines[i] == kept[i];
        }
      }
    }
    assert RecipesValid(e);
    assert RecipeTagsValid(e);
    assert MarksValid(e, e.favorites) && MarksValid(e, e.cart);
  }

  /** Replacing the lines of `pk` by new ones: `pk` gets exactly the new lines, and every other
      recipe keeps its own. */
  lemma LinesOfReplaced(lines: seq<IngredientLine>, pk: RecipeId, amounts: seq<IngredientAmount>, k: RecipeId)
    ensures LinesOf(KeepLines(lines, {pk}) + NewLines(pk, amounts), k)
      == if k == pk then NewLines(pk, amounts) else LinesOf(lines, k)
  {
    LinesOfAppend(KeepLines(lines, {pk}), NewLines(pk, amounts), k);
    LinesOfKeepLines(lines, {pk}, k);
    LinesOfNewLines(pk, amounts, k);
  }

  /** The line half of `UpdateSpecContents`. */
  lemma UpdateSpecLines(d: Db, pk: RecipeId, data: RecipeData)
    requires pk in d.recipes
    ensures var e := UpdateSpec(d, pk, data);
      && LinesOf(e.lines, pk) == NewLines(pk, data.ingredients)
      && (forall k :: k != pk ==> LinesOf(e.lines, k) == LinesOf(d.lines, k))
  {
    var lines := UpdateSpec(d, pk, data).lines;
    assert lines == KeepLines(d.lines, {pk}) + NewLines(pk, data.ingredients);
    LinesOfReplaced(d.lines, pk, data.ingredients, pk);
    forall k | k != pk ensures LinesOf(lines, k) == LinesOf(d.lines, k) {
      LinesOfReplaced(d.lines, pk, data.ingredients, k);
    }
  }

  /** The tag half of `UpdateSpecContents`. */
  lemma UpdateSpecTags(d: Db, pk: RecipeId, data: RecipeData)
    requires pk in d.recipes
    ensures var e := UpdateSpec(d, pk, data);
      && TagsOf(e, pk) == Elements(data.tags)
      && (forall k :: k != pk ==> TagsOf(e, k) == TagsOf(d, k))
  {
    var e := UpdateSpec(d, pk, data);
    forall t | t in data.tags ensures t in TagsOf(e, pk) {
      assert RecipeTag(pk, t) in e.recipeTags;
    }
  }


  /** After an update the recipe carries exactly the submitted tags and exactly the submitted
      lines (none of the old ones survives), keeps its author, takes each scalar field that
      was sent and keeps each one that was not; no other recipe's lines or tags change. */
  lemma UpdateSpecContents(d: Db, pk: RecipeId, data: RecipeData)
    requires pk in d.recipes
    ensures var e := UpdateSpec(d, pk, data);
      && e.recipes.Keys == d.recipes.Keys
      && e.recipes[pk].author == d.recipes[pk].author
      && e.recipes[pk].name == data.name.GetOr(d.recipes[pk].name)
      && e.recipes[pk].cookingTime == data.cookingTime.GetOr(d.recipes[pk].cookingTime)
      && e.recipes[pk].text == data.text.GetOr(d.recipes[pk].text)
      && e.recipes[pk].image == data.image.GetOr(d.recipes[pk].image)
      && (forall k :: k in d.recipes && k != pk ==> e.recipes[k] == d.recipes[k])
      && TagsOf(e, pk) == Elements(data.tags)
      && LinesOf(e.lines, pk) == NewLines(pk, data.ingredients)
      && (forall k :: k != pk ==> LinesOf(e.lines, k) == LinesOf(d.lines, k) && TagsOf(e, k) == TagsOf(d, k))
      && e.users == d.users && e.favorites == d.favorites && e.cart == d.cart
  {
    UpdateSpecLines(d, pk, data);
    UpdateSpecTags(d, pk, data);
  }

  // ---- Subscriptions ----

  datatype SubscriptionCheck = SubscriptionOk | AlreadySubscribed | SelfSubscription

  /** `SubscriptionSerializer`: the unique-together validator runs first, then `validate`
      refuses a subscription to oneself. */
  function ValidateSubscription(existing: set<Subscription>, s: Subscription): (r: SubscriptionCheck)
    ensures r == SubscriptionOk <==> s !in existing && s.subscriber != s.author
    ensures r == AlreadySubscribed <==> s in existing
    ensures r == SelfSubscription <==> s !in existing && s.subscriber == s.author
  {
    if s in existing then AlreadySubscribed
    else if s.subscriber == s.author then SelfSubscription
    else SubscriptionOk
  }

  /** `get_recipes`: the author's recipes cut to `recipes_limit` when that parses as an
      integer. A negative limit makes the queryset slice raise ValueError, which the method
      catches just as it catches an unparsable limit: all the recipes are returned. */
  function GetRecipes(recipes: seq<Recipe>, limit: Option<string>): (r: seq<Recipe>)
    ensures |r| <= |recipes| && r == recipes[..|r|]
    ensures limit.None? ==> r == recipes
    ensures limit.Some? && !Decimal.IsIntLiteral(limit.value) ==> r == recipes
    ensures limit.Some? && Decimal.IsIntLiteral(limit.value) ==>
      var n := Decimal.ParseInt(limit.value).value;
      if n < 0 then r == recipes else |r| == if n < |recipes| then n else |recipes|
  {
    if limit.None? then recipes
    else
      match Decimal.ParseInt(limit.value)
      case None => recipes
      case Some(n) => if n < 0 then recipes else if n < |recipes| then recipes[..n] else recipes
  }

  /** `get_recipes_count`: the author's recipe count, whatever the limit. */
  function RecipesCount(recipes: seq<Recipe>): nat {
    |recipes|
  }

  /** The page never holds more recipes than the count reports, and the limit written as a
      decimal returns exactly that many when the author has enough. */
  lemma PageWithinCount(recipes: seq<Recipe>, n: nat, limit: Option<string>)
    ensures |GetRecipes(recipes, limit)| <= RecipesCount(recipes)
    ensures n <= |recipes| ==> GetRecipes(recipes, Some(Decimal.NatToDecimal(n))) == recipes[..n]
  {
    Decimal.ParseIntOfDecimal(n);
  }
}
