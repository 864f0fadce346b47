# foodgram core, modelled in Dafny

This project models the logic at the centre of the foodgram recipe-sharing backend.

- The database becomes a value `Schema.Db` with one component per table, plus a class `Store.Database` whose fields the views update in place.
- Users, ingredients, tags and recipes are datatypes. The field bounds and uniqueness constraints of the Django models become validity predicates (`Schema.ValidDb`).
- `on_delete=CASCADE` becomes the functions `Schema.DeleteRecipe` and `Schema.DeleteUser`.
- The favorite, shopping-cart and subscription endpoints toggle a pair in a set (`Toggles.Toggle`). The view methods in `ApiViews` perform the toggle on the database and answer with a status.
- Creating and updating a recipe goes through DRF validation, modelled field by field in `Serializers.Validate`.
  - The validated data is then written by `ApiViews.ApplyCreate` and `ApiViews.ApplyUpdate` in the serializer's own steps, and a deletion by `ApiViews.ApplyDelete`.
  - The result is specified by `Serializers.CreateSpec` and `Serializers.UpdateSpec`.
- The shopping-list download walks the cart with nested loops into a sum per ingredient (`ShoppingList.Summarise`). It then renders the text report (`ShoppingList.BuildShoppingList`). Both are proved against the specification functions `FirstSeen`, `Total` and `Report`.
- Short links encode the decimal recipe id with base64url, section 5 of RFC 4648 without padding (`Base64Url`, `ShortLinks`). The redirect view decodes them back.
- The permission class, the query filters, the username validator and the two admin columns are pure functions with their properties proved.

Two behaviours worth knowing:

- The shopping list is not sorted: lines appear in the order each ingredient is first met. Each line reads "• {name} — {amount}({unit})\n".
- An update replaces the tag set and all ingredient lines wholesale. It does not merge the old and new lines.

The HTTP request is reduced to its inputs:

- the requesting user, `None` for an anonymous request;
- the path key;
- the payload;
- the query value.

The response is reduced to its status (`Responses.Status`).

## Model

| member | source | states |
|---|---|---|
| Toggles.Toggle | backend/api/views.py:178-199 | Adding a present pair or removing an absent one is refused and leaves the relation unchanged. Otherwise exactly that pair is inserted or deleted, and no other pair changes. Success holds iff the relation changed. The outcome is Added exactly for an add of a missing pair, and Removed exactly for a removal of a present one, so a POST can only answer 201 and a DELETE only 204. |
| Toggles.AddThenRemove | backend/api/views.py:244-265 | Adding a missing pair and then removing it both succeed, and the relation is back to where it was. |
| Toggles.RemoveThenAdd | backend/api/views.py:267-289 | Removing a present pair and then adding it both succeed, and the relation is restored. |
| Toggles.AddTwice | backend/api/views.py:249-252 | A second add of the same pair is refused with the relation unchanged. |
| Toggles.RemoveTwice | backend/api/views.py:281-289 | A second removal of the same pair is refused with the relation unchanged. |
| Responses.ToggleStatus | backend/api/views.py:181-199 | The answer is 201 iff the pair was added, 204 iff it was removed, and 400 iff the toggle was refused. |
| ApiViews.Subscribe | backend/api/views.py:164-199 | An anonymous request gets NotAuthenticated and an unknown author gets 404. Subscribing to or unsubscribing from oneself gets 400, for POST and DELETE alike, with nothing changed. Otherwise the subscription table is toggled, with its status. The database stays valid. |
| ApiViews.Favorite | backend/api/views.py:244-265 | An anonymous request gets NotAuthenticated and an unknown recipe gets 404, with nothing changed. Otherwise the (recipe, user) favorite row is toggled, with its status. The database stays valid. |
| ApiViews.ShoppingCart | backend/api/views.py:267-289 | The same as Favorite, on the cart table. |
| ApiViews.CreateOutcome | backend/api/views.py:215-229 | An anonymous request gets NotAuthenticated. A signed-in request gets 201 iff the full payload validates, and 400 otherwise. Nothing changes unless the status is 201. |
| ApiViews.CreateOutcomeValid | backend/api/serializers.py:279-289 | After a create the database is valid, and its recipe keys are the old ones plus the new id exactly when the status is 201. |
| ApiViews.CreateRecipe | backend/api/views.py:226-229 | The status and the new tables are those of CreateOutcome with the next free id. The id counter moves on only on success. |
| ApiViews.ApplyCreate | backend/api/serializers.py:269-289 | The recipe row, its tag set and its ingredient lines are written in the serializer's order. The resulting tables equal CreateSpec. |
| ApiViews.UpdateOutcome | backend/api/views.py:215-233 | The errors are NotAuthenticated, then 404 for a missing recipe, then 403 for a non-author. For the author, 200 iff the payload validates (partial for PATCH), else 400. Nothing changes unless the status is 200. |
| ApiViews.UpdateOutcomeValid | backend/api/serializers.py:291-299 | After an update the database is valid and has the same recipe keys. |
| ApiViews.UpdateRecipe | backend/api/views.py:231-233 | The status and the new tables are those of UpdateOutcome. The database stays valid. |
| ApiViews.ApplyUpdate | backend/api/serializers.py:291-299 | In order: the tag set is replaced, the recipe's lines are cleared, the new lines are appended, and the scalar fields sent are saved. The resulting tables equal UpdateSpec. |
| ApiViews.DestroyRecipe | backend/api/views.py:235-242 | An anonymous request gets NotAuthenticated and a missing recipe gets 404. A non-author gets 403 and the recipe stays. 204 holds iff the author asks, and then the tables are DeleteRecipe of the old ones. Nothing changes otherwise. |
| ApiViews.ApplyDelete | backend/api/views.py:242 | Deleting the recipe writes exactly the tables DeleteRecipe gives: the recipe and its cascaded rows are gone. |
| ApiViews.GetLink | backend/api/views.py:291-298 | 200 iff the recipe exists, else 404. The path is "/s/{code}/", and resolving the code redirects back to "/recipes/{pk}/". |
| ApiViews.DownloadShoppingCart | backend/api/views.py:300-338 | An anonymous request gets NotAuthenticated. Otherwise the text is Report over the ingredient lines of the cart's recipes, in the order the cart rows are read. |
| ShoppingList.BuildShoppingList | backend/api/views.py:319-323 | The text grown by the render loop equals Report: the header, then one line per distinct ingredient in first-seen order, with its total. |
| ShoppingList.RenderReport | backend/api/views.py:319-323 | Starting from the header and appending one line per dictionary key, in insertion order, gives the header followed by the rendered lines of the first-seen ingredients. |
| ShoppingList.Summarise | backend/api/views.py:305-316 | The nested loops leave the keys equal to FirstSeen of all the lines, and each key's sum equal to Total over all the lines. |
| ShoppingList.FirstSeenDistinct | backend/api/views.py:312-316 | No ingredient appears twice among the report's keys. |
| ShoppingList.FirstSeenComplete | backend/api/views.py:312-316 | An ingredient is among the keys iff some line of some cart recipe uses it. |
| ShoppingList.FirstSeenOrder | backend/api/views.py:320-323 | The k-th key is the ingredient of the k-th first occurrence, and those positions increase: first-encountered order, not sorted. |
| ShoppingList.TotalsPreserveSum | backend/api/views.py:312-316 | The printed totals add up to the sum of all amounts on all lines. |
| ShoppingList.TotalOverCart | backend/api/views.py:312-316 | An ingredient's total equals the sum, over the cart's recipes, of its amount in each recipe. |
| ShoppingList.EmptyCartReport | backend/api/views.py:319 | With no ingredient lines the report is the header alone. |
| Base64Url.DecodeEncode | backend/api/views.py:295 | Decoding the encoding of any byte string gives it back. |
| Base64Url.EncodeDecode | backend/api/views.py:346 | A canonical code that decodes is re-encoded to itself. |
| Decimal.ParseIntOfDecimal | backend/recipes/views.py:15 | `int(str(n))` is n for every natural n. |
| Decimal.DecimalInjective | backend/api/views.py:295 | Distinct ids have distinct decimal texts. |
| ShortLinks.ShortCode | backend/api/views.py:295 | The short code uses only the URL-safe alphabet. |
| ShortLinks.AsciiRoundTrip | backend/api/views.py:346 | UTF-8 decoding of the UTF-8 encoding of ASCII text gives the text back. |
| ShortLinks.Resolve | backend/recipes/views.py:12-17 | A code is Malformed iff it does not decode, or decodes to non-ASCII text, or to text `int()` refuses. Otherwise, with n the integer `int()` reads, the answer is a redirect to "/recipes/{n}/" when n names an existing recipe, and NotFound otherwise; this holds for any spelling of n, such as "007" or "-1". |
| ShortLinks.ShortLinkRoundTrip | backend/recipes/views.py:14-16 | Resolving the short code of id redirects to "/recipes/{id}/" when the recipe exists, and gives 404 when it does not. |
| ShortLinks.ShortCodeInjective | backend/api/views.py:295 | Distinct recipes get distinct short codes. |
| Serializers.NoDuplicatesIffDistinct | backend/api/serializers.py:251 | `len(ids) != len(set(ids))` holds iff some id occurs twice. |
| Serializers.IngredientsError | backend/api/serializers.py:247-257 | The first failing check: an unknown id or missing amount, then repeated ids, then an empty list. Each reason holds iff its condition holds and the earlier ones do not. |
| Serializers.TagsError | backend/api/serializers.py:259-267 | The first failing check: an unknown tag, then an empty list, then repeated tags. Each holds iff its condition holds. |
| Serializers.Validate | backend/api/serializers.py:235-245 | Field errors come first: the result is FieldErrors exactly when the field checks report any error. A missing ingredients or tags key in a partial update is the non-field error, ingredients before tags. Validated data carries the submitted tags and one amount per submitted entry. |
| Serializers.ValidateAccepts | backend/api/serializers.py:219-267 | A payload is accepted iff ingredients and tags are present, non-empty, known and free of repeats. In a full request image, name, text and cooking time must also be sent. Every field sent must be within its bounds. |
| Serializers.PartialUpdateNeedsIngredientsAndTags | backend/api/serializers.py:237-244 | Without an ingredients or a tags key no payload validates, in a full or a partial request. |
| Serializers.CreateSpecValid | backend/api/serializers.py:279-289 | Writing a new recipe from validated data keeps every integrity rule of the schema. |
| Serializers.CreateSpecContents | backend/api/serializers.py:269-289 | The new recipe has the requester as author, exactly the submitted tags and exactly one line per submitted entry, in order and with the submitted amount. Its name, text, cooking time and image are the submitted ones. The recipe keys gain exactly the new id, and every existing recipe keeps its row, lines and tags. |
| Serializers.UpdateSpecValid | backend/api/serializers.py:291-299 | An update from validated data keeps every integrity rule. |
| Serializers.UpdateSpecContents | backend/api/serializers.py:291-299 | The tag set becomes exactly the submitted one, and the lines become exactly the submitted ones, old lines gone. Each of name, text, cooking time and image is replaced when sent and kept otherwise, and the author is unchanged. Other recipes' rows, lines and tags, the users, the favorites and the cart are untouched. |
| Serializers.ValidateSubscription | backend/api/serializers.py:109-127 | An existing pair is refused by the uniqueness validator before `validate` runs. Then a self-subscription is refused. Otherwise the pair is accepted. |
| Serializers.GetRecipes | backend/api/serializers.py:80-94 | The result is a prefix of the author's recipes. It is all of them when the limit is absent, not an integer, or negative (the caught ValueError), and min(n, count) of them otherwise. |
| Serializers.PageWithinCount | backend/api/serializers.py:80-98 | The page never exceeds `recipes_count`, and a limit n up to the count gives exactly the first n recipes. |
| Schema.DeleteRecipesKeepsValid | backend/recipes/models.py:179-190 | Deleting recipes with their cascades keeps every integrity rule. |
| Schema.DeleteRecipeCascade | backend/recipes/models.py:136-148 | Deleting a recipe removes its row, so the keys are the old ones without it, and its tag links, lines, favorite and cart rows. Users, ingredients, tags, subscriptions and every other recipe's row, lines, tag links, favorite and cart rows are left as they were. |
| Schema.DeleteUserCascade | backend/users/models.py:64-75 | Deleting a user removes their recipes, marks and every subscription where they are subscriber or author, and keeps the database valid. Exactly the other subscriptions stay. The catalogues, the other users, the other authors' recipes with their lines and tag links, and other users' marks on those recipes stay as they were. |
| UsersModels.AddUserKeepsValid | backend/users/models.py:22-33 | A valid new user can be added, keeping the user table valid, iff neither their username nor their email is taken. |
| RecipesModels.LinesUniqueSnoc | backend/recipes/models.py:165-169 | Appending a line keeps (recipe, ingredient) unique iff no earlier line has the same pair. |
| Permissions.HasPermission | backend/api/permissions.py:13-17 | Safe methods are always allowed. The others are allowed iff the requester is signed in. |
| Permissions.HasObjectPermission | backend/api/permissions.py:19-23 | Safe methods are always allowed. The others are allowed iff the requester is the object's author. |
| Permissions.ObjectCheckDecides | backend/api/permissions.py:13-23 | Passing the object check implies passing the view check. Together they allow exactly a safe method or the author. |
| Filters.FilterByMark | backend/api/filters.py:24-36 | With a false value or an anonymous requester the queryset is returned unchanged. Otherwise exactly the recipes the requester marked are kept, as a subsequence of the input. |
| Filters.FilterByName | backend/api/filters.py:39-48 | An absent or empty query keeps everything. Otherwise exactly the ingredients whose lower-cased name contains the lower-cased query are kept, in order. |
| Filters.LowerKeepsOccurrence | backend/api/filters.py:42 | A query that occurs in a name as typed still occurs after both are lower-cased. |
| Filters.NameFilterIgnoresCase | backend/api/filters.py:42 | The query's case does not change the result, and an ingredient whose name contains the query as typed is always found. |
| UsernameValidator.ValidateUsername | backend/foodgram/validators.py:8-13 | A name is accepted, and returned unchanged, iff it is one or more characters of `[\w.-]` optionally followed by a single newline. Any other name raises the error with its message. |
| UsernameValidator.PatternMatchesIffOk | backend/foodgram/validators.py:10 | The backtracking match succeeds iff `$` holds after the greedy run, iff the declarative rule holds. |
| UsernameValidator.EmptyRejected | backend/foodgram/validators.py:10 | The empty name is rejected. |
| UsernameValidator.ForeignCharacterRejected | backend/foodgram/validators.py:10-12 | A name holding a space, '@' or '+' anywhere is rejected. |
| UsernameValidator.TrailingNewline | backend/foodgram/validators.py:10 | A valid name followed by one newline is accepted with the newline kept. Two newlines, or a newline alone, are rejected. |
| UsernameValidator.ValidateUsernameFull | backend/foodgram/validators.py:10-12 | The corrected check accepts iff every character is in the class and there is at least one. |
| UsernameValidator.FullMatchRejectsNewline | backend/foodgram/validators.py:10 | The corrected check never accepts a newline. It agrees with the check as written on every name without one. |
| RecipeAdmin.JoinEmptyIff | backend/recipes/admin.py:36-37 | The joined tag text is empty iff there are no names, or a single empty one. |
| RecipeAdmin.JoinLength | backend/recipes/admin.py:36 | The joined text is as long as the names together plus two characters per separator. |
| RecipeAdmin.TagsInList | backend/recipes/admin.py:33-39 | The joined names when that text is non-empty, "Нет тегов" when it is empty. |
| RecipeAdmin.TagsInListCases | backend/recipes/admin.py:34-39 | When every tag name is non-blank, a recipe without tags shows "Нет тегов" and a recipe with tags shows their names joined by ", ". A blank name is refused only by forms, not by the database, so this is a condition of the lemma. |
| RecipeAdmin.IngredientInList | backend/recipes/admin.py:41-48 | There is one entry per ingredient line, in iteration order, each " {name}({amount}{unit}.)". |
| RecipeAdmin.IngredientInListAppend | backend/recipes/admin.py:44-48 | The list for two runs of lines is the concatenation of their lists. |
| RecipeAdmin.EntryDeterminesAmount | backend/recipes/admin.py:45-46 | Two entries for the same ingredient read the same only if the amounts are equal. |

## Left out

- HTTP plumbing is not modelled:
  - response bodies and messages;
  - `FileResponse`/`BytesIO` and the attachment header;
  - `build_absolute_uri` and `redirect`.
- The distinction between 401 and 403 for an anonymous request is not modelled; both are `NotAuthenticated`, since the choice depends on authentication settings.
- Images (`Base64ImageField`) are opaque strings, since image decoding and file storage are outside the model.
- The read serializers and `to_representation` are not modelled.
- The user-account actions (djoser, `me`, `avatar`, `set_password`, the subscriptions list) are not modelled.
- `__str__` of the models and the admin display configuration of other models are not modelled.
- Concurrency and transaction isolation are not modelled: each transaction is one all-or-nothing step.
- Database iteration order is a parameter or the table's sequence order, taken as given.
  - Cart rows and ingredient lines declare no ordering.
  - Tags are ordered by name (backend/recipes/models.py:58), so `tags_in_list` lists a recipe's tags in name order. `RecipeAdmin.TagsInList` and `RecipeAdmin.TagsInListCases` accept names in any order and do not promise that sorting.
  - Recipes are ordered by name and then cooking time (backend/recipes/models.py:126). `Serializers.GetRecipes` takes the author's recipes in the order given.
- Column lengths come from foodgram/constants.py, which is not part of this model; the values used are constants in `RecipesModels`.
- Email and slug formats are not modelled.
- `FavoriteRecipeViewSet` and `ShoppingCartViewSet` are not routed. They share the toggle semantics of the routed actions, except that their destroy answers 400 rather than 404 for an unknown recipe; they are not modelled separately.
- ShortLinks.Resolve: an undecodable code, non-ASCII text or text `int()` refuses is `Malformed`; the source raises an uncaught exception there.
- ShortLinks.Resolve: Django's lenient decoder, which re-pads the code and skips characters outside the alphabet, is modelled as the strict decoder of RFC 4648.
- ShortLinks.Resolve: `int()` is modelled on an optional sign and ASCII digits. Surrounding whitespace, underscores and non-ASCII digits, which Python also accepts, are not.
- Serializers.GetRecipes: the same `int()` restriction applies.
- Serializers.Validate: DRF's trimming of surrounding whitespace in character fields is not modelled, and the error messages are reduced to a reason per field.
- UsernameValidator.ValidateUsername: `\w` covers ASCII letters and digits, '_' and the Russian alphabet only. Other Unicode letters and digits, which Python's `\w` also accepts, are rejected by the model.
- Filters.FilterByName: case folding covers the Latin and Russian alphabets only.
- ApiViews.UpdateRecipe: `perform_update` saves with the requester as author. Only the author gets this far, so the model keeps the stored author.
- A non-numeric path key is not modelled; keys are natural numbers. The routes accept any segment without '/' or '.'. For update and destroy, DRF's `get_object` turns a key that is not a number into a 404. In `subscribe`, `favorite` and `shopping_cart`, `get_object_or_404(…, pk=pk)` raises an uncaught ValueError instead, which gives a 500.
- The favorite views use a model `MyFavoriteRecipe` with fields `recipe` and `author` (backend/api/views.py:11, 249-258), which backend/recipes/models.py does not define. The model follows models.py: favorites are `FavoriteRecipe` rows with fields `recipe` and `user`, and they share the cart's (recipe, user) mark. As written, the views module would fail on that import.

## Findings

| source | as written | input that shows it | evidently intended | confidence | as-written member | corrected member |
|---|---|---|---|---|---|---|
| backend/foodgram/validators.py:10 | `re.match(r'^[\w.-]+$', value)` accepts a name followed by one newline, because `$` also matches before a final newline | "ivan\n" is accepted and returned with the newline | only word characters, '.' and '-', as the error message says (`re.fullmatch` or `\Z`) | not executed | UsernameValidator.TrailingNewline | UsernameValidator.FullMatchRejectsNewline |
