# Foodgram recipe backend: a verified model of its store, write path and shopping list

Foodgram is a recipe-sharing backend. Users publish recipes with tags and ingredient quantities. They mark recipes as favourites, put recipes in a shopping cart and follow authors. The shopping list sums the ingredient quantities of every recipe in a user's cart.

This Dafny project models the part of the backend that carries domain rules:

- **The store** (`models.dfy`, module `Models`). A class `Store` has one field per table: users, ingredients, tags, recipes with their tag sets, ingredient rows, favourites, cart entries and subscriptions. `Database` is a value snapshot of those tables. `Database.Valid` collects the model declarations' rules: the unique constraints, the minimum-value validators and the foreign keys. The on_delete rules are pure functions on snapshots: cascade when a recipe or a user is deleted, and PROTECT when an ingredient is deleted.
- **The recipe write path** (`serializers.dfy`, module `Serializers`). It covers `RecipeCreateSerializer.validate` (the loop over ingredient items), `create_ingredients`, `create` and `update`, plus the membership checks of the favourite, cart and subscription serializers. The methods change the store in place. Each states the whole new store.
- **The API actions** (`views.dfy`, module `Views`). These are `perform_create`, add and remove for favourites, cart entries and subscriptions, and `download_shopping_cart`. Each relation action is specified by a pure `Step` on a snapshot, and the method that updates the store is proved to take exactly that step.
- **The shopping-list query** (`aggregation.dfy`, module `Aggregation`). It is a group-by-(name, unit) sum written as a left fold over the ingredient rows. It is proved against `RowSum`, a reference fold per key.
- **The shopping-list text** (`utils.dfy`, module `Utils`). `create_list_shopping_cart` is a loop that appends one numbered line per group after a fixed header.
- **The recipe-list filters** (`filters.dfy`, module `Filters`). These are the `is_favorited` and `is_in_shopping_cart` flags.

Errors are values of `Results.Error`:

- serializer validation errors;
- `NotFound`, for `get_object_or_404`;
- `UniqueViolation`, for a unique constraint;
- `ProtectedReference`, for `on_delete=PROTECT`.

Three behaviours of the code are worth stating up front, because the model keeps them as written:

- **Self-subscription succeeds.** `IsSubscribedSerializer.validate` refuses following oneself (`backend/foodgram_backend/api/serializers.py:274-277`). The `subscribe` action (`backend/foodgram_backend/api/views.py:133-142`), however, inserts the row directly and never runs that check. So `Views.Subscribe` accepts user == author, and a repeated pair is refused only by the unique constraint. `Views.SelfSubscriptionAccepted` states this.
- **Groups are keyed by name and unit.** The shopping-list query groups by ingredient name and measurement unit, not by ingredient id. So two ingredients with the same name and unit share one group, and the model uses the (name, unit) key.
- **A missing `cooking_time` crashes creation.** The field has a model default, so the serializer lets a request leave it out, but `validate` then reads `data['cooking_time']` and raises KeyError (an HTTP 500). The model's input carries the cooking time as an option, and `validate` answers `MissingKey("cooking_time")` when it is absent.

## Model

| member | source | states |
|---|---|---|
| Models.WithoutRecipes | backend/foodgram_backend/recipes/models.py:84-85 | the cascade on ingredient rows keeps exactly the rows whose recipe is not deleted, and never adds rows |
| Models.WithoutRecipesUnique | backend/foodgram_backend/recipes/models.py:94-99 | removing rows keeps the `unique_ingredient` (recipe, ingredient) constraint |
| Models.WithoutRecipesRowsOf | backend/foodgram_backend/recipes/models.py:84-85 | after the cascade, a deleted recipe has no rows and every other recipe has the very same rows in the same order |
| Models.DeleteRecipesValid | backend/foodgram_backend/recipes/models.py:84-85 | deleting recipes with their cascades (rows, favourites, cart entries) keeps every constraint of the store |
| Models.DeleteRecipeEffect | backend/foodgram_backend/recipes/models.py:114-117 | deleting a recipe removes it, its rows, and exactly the favourite and cart pairs naming it; other recipes, their rows, users, ingredients, tags and subscriptions are untouched |
| Models.DeleteUserValid | backend/foodgram_backend/recipes/models.py:52-53 | deleting a user (the cascade `Database.DeleteUser`) keeps every constraint of the store |
| Models.DeleteUserEffect | backend/foodgram_backend/recipes/models.py:52-53 | deleting a user removes exactly that user, the recipes they wrote with those recipes' rows, the favourite and cart pairs that are theirs or name one of their recipes, and the subscriptions from or to them; other recipes keep their fields and rows, and ingredients and tags are untouched |
| Models.DeleteIngredientProtects | backend/foodgram_backend/recipes/models.py:81-83 | an ingredient can be deleted iff it exists and no row refers to it; the deletion removes only that ingredient and keeps the store valid |
| Models.InsertRecipeValid | backend/foodgram_backend/recipes/models.py:61-64 | a recipe whose cooking time is at least 1 and whose author and tags exist can be inserted under the next auto-increment id, which no recipe or row uses yet |
| Models.ReplaceRecipeValid | backend/foodgram_backend/recipes/models.py:47-64 | overwriting a recipe's fields with values that meet the validators keeps the store valid |
| Models.ClearRowsValid | backend/foodgram_backend/api/serializers.py:187 | clearing one recipe's ingredient rows keeps the store valid and leaves no row of that recipe |
| Models.Store.DeleteRecipe | backend/foodgram_backend/recipes/models.py:84-85 | 404 for an unknown recipe, otherwise the store becomes the cascaded deletion; validity is preserved |
| Models.Store.DeleteUser | backend/foodgram_backend/recipes/models.py:52-53 | 404 for an unknown user, otherwise the store becomes the cascaded deletion; validity is preserved |
| Models.Store.DeleteIngredient | backend/foodgram_backend/recipes/models.py:81-83 | passes iff the ingredient exists and is unreferenced; on failure nothing changes and the error is NotFound or ProtectedReference |
| Serializers.CheckItemsPass | backend/foodgram_backend/api/serializers.py:146-157 | the item loop passes iff every id exists, has amount at least 1, is pairwise distinct and is not among the ids already seen |
| Serializers.RecipeCheckAccepts | backend/foodgram_backend/api/serializers.py:136-162 | `validate` passes iff tags and ingredients are non-empty, the items are accepted and the cooking time is present and at least 1 |
| Serializers.CheckItemsBlames | backend/foodgram_backend/api/serializers.py:146-157 | each error of the item loop points at a real offending item: an unknown id, an id repeated earlier, or an amount below 1 |
| Serializers.RecipeCheckBlames | backend/foodgram_backend/api/serializers.py:136-162 | each error of `validate` names a rule the input really breaks, in the source's order of checks; a missing cooking time raises the KeyError only after every item passed |
| Serializers.ValidateRecipe | backend/foodgram_backend/api/serializers.py:136-162 | the loop returns the data unchanged iff it is accepted, and otherwise the first error in the source's order |
| Serializers.BulkCreateValid | backend/foodgram_backend/api/serializers.py:164-174 | bulk-inserting accepted items for a recipe that has no rows keeps the store valid |
| Serializers.CreateIngredients | backend/foodgram_backend/api/serializers.py:164-174 | appends exactly one row (recipe, id, amount) per item, in order, and changes nothing else |
| Serializers.Create | backend/foodgram_backend/api/serializers.py:176-182 | adds one recipe under the next id with tag set exactly the input tags, and rows exactly one per input item; nothing else changes |
| Serializers.ReplaceIngredients | backend/foodgram_backend/api/serializers.py:185-188 | after clear and bulk insert, the recipe's rows are exactly the new items (no stale rows) and every other recipe's rows are unchanged |
| Serializers.Update | backend/foodgram_backend/api/serializers.py:184-192 | for a patch that passed field validation and `validate` (non-empty known tags, non-empty accepted ingredients), rows are replaced only when `ingredients` is present, the tag set only when `tags` is present, and each other attribute only when its key is present; the store stays valid |
| Serializers.SetAttributes | backend/foodgram_backend/api/serializers.py:189-192 | setting the tags and the remaining present attributes changes only that recipe, to `Patched`, and keeps the store valid |
| Serializers.FavoriteValidate | backend/foodgram_backend/api/serializers.py:300-310 | refuses exactly an existing (user, recipe) favourite pair |
| Serializers.ShoppingCartValidate | backend/foodgram_backend/api/serializers.py:205-215 | refuses exactly an existing (user, recipe) cart pair |
| Serializers.SubscriptionValidate | backend/foodgram_backend/api/serializers.py:268-285 | refuses user == author first, then an existing pair, and passes otherwise |
| Serializers.FirstUnknownTag | backend/foodgram_backend/api/serializers.py:126-128 | finds a tag id that names no tag iff one exists |
| Serializers.Trim | backend/foodgram_backend/recipes/models.py:49 | trimming a CharField value leaves nothing iff the value is whitespace only; otherwise the result neither starts nor ends with whitespace |
| Serializers.TrimPadded | backend/foodgram_backend/recipes/models.py:49 | trimming removes exactly the whitespace around a value, and nothing of the value itself |
| Serializers.TrimIdempotent | backend/foodgram_backend/recipes/models.py:49 | trimming a trimmed value changes nothing |
| Serializers.CheckText | backend/foodgram_backend/recipes/models.py:49-60 | the `name` and `text` fields pass iff neither is blank and the trimmed name has at most 16 characters; a blank name and an over-long name are reported as such |
| Serializers.PaddedNameTrimmed | backend/foodgram_backend/recipes/models.py:49 | a name sent as `" Borscht "` is stored as `"Borscht"` |
| Serializers.PaddedNameExample | backend/foodgram_backend/recipes/models.py:49 | that padded name passes field validation, while a name of spaces is refused as blank |
| Serializers.CheckCookingTime | backend/foodgram_backend/recipes/models.py:61-64 | the field-level `min_value` refuses a present cooking time below 1 with `CookingTimeBelowOne` and lets an absent one through |
| Serializers.IsValid | backend/foodgram_backend/api/serializers.py:123-162 | the serializer's validation passes iff every tag exists, name and text are not blank, the trimmed name fits 16 characters and `validate` accepts the data; a cooking time below 1 is refused at field level, before `validate` looks up any ingredient |
| Serializers.CookingTimeBeforeItems | backend/foodgram_backend/recipes/models.py:61-64 | an input with cooking time 0 and an unknown ingredient is refused for its cooking time, not with a 404 |
| Aggregation.AddToEffect | backend/foodgram_backend/api/views.py:81-86 | adding a row's amount keeps keys distinct, changes only the group of its key, or opens that group at the end when none exists |
| Aggregation.AggregateDistinct | backend/foodgram_backend/api/views.py:81-86 | no (name, unit) group appears twice |
| Aggregation.AggregateCovers | backend/foodgram_backend/api/views.py:81-86 | every row of a cart recipe whose ingredient joins has a group |
| Aggregation.AggregateWitnessed | backend/foodgram_backend/api/views.py:81-86 | every group comes from some row of a cart recipe |
| Aggregation.AggregateTotals | backend/foodgram_backend/api/views.py:81-86 | each group's amount is the sum of the amounts of the cart rows with its key, and rows of other recipes add nothing |
| Aggregation.AggregateCorrect | backend/foodgram_backend/api/views.py:81-86 | the fold is a group-by sum: distinct keys, exact totals, one group per key present and none other |
| Aggregation.EmptyCartAggregate | backend/foodgram_backend/api/views.py:81-86 | an empty cart yields no groups |
| Aggregation.FlourExample | backend/foodgram_backend/api/views.py:81-86 | flour 200 g and 100 g in two cart recipes give one group of 300 g; a recipe outside the cart adds nothing |
| Utils.NatToString | backend/foodgram_backend/api/utils.py:9 | the position is written as a non-empty string of decimal digits without a leading zero |
| Utils.IntToString | backend/foodgram_backend/api/utils.py:10 | the amount is written as decimal digits that read back as its absolute value, after a leading '-' exactly when it is negative |
| Utils.ParseNatToString | backend/foodgram_backend/api/utils.py:9 | reading the written digits back gives the number |
| Utils.NumberThenText | backend/foodgram_backend/api/utils.py:9 | a written number followed by non-digit text is read back as that number |
| Utils.LinePosition | backend/foodgram_backend/api/utils.py:8-12 | a line starts with a newline followed by its own position number |
| Utils.CreateListShoppingCart | backend/foodgram_backend/api/utils.py:5-13 | the result is the header, then for each group i (from 1, in input order) the line `\n i. name: amount(unit)`; its length is one more than the input's |
| Utils.ShoppingListNumbered | backend/foodgram_backend/api/utils.py:7-12 | the lines after the header are numbered 1, 2, 3, ... consecutively |
| Utils.ShoppingListEmpty | backend/foodgram_backend/api/utils.py:6-13 | the list is the header alone iff there are no groups |
| Filters.Keep | backend/foodgram_backend/api/filters.py:19 | filtering keeps exactly the queryset's recipes in the allowed set and adds nothing |
| Filters.KeepAppend | backend/foodgram_backend/api/filters.py:19 | filtering keeps the queryset's order |
| Filters.Favorite | backend/foodgram_backend/api/filters.py:17-20 | with the flag, exactly the queryset's recipes the user favourited; without it, the queryset unchanged; never more than the input |
| Filters.ShoppingCart | backend/foodgram_backend/api/filters.py:22-25 | with the flag, exactly the queryset's recipes in the user's cart; without it, the queryset unchanged; never more than the input |
| Filters.FavoriteIdempotent | backend/foodgram_backend/api/filters.py:17-20 | applying the favourite filter twice is the same as once |
| Filters.FiltersCommute | backend/foodgram_backend/api/filters.py:17-25 | the two flags can be applied in either order |
| Views.AddFavorite | backend/foodgram_backend/api/views.py:39-47 | passes iff the recipe exists and the pair is new, then adds exactly that pair; otherwise InvalidRecipe or AlreadyFavorited with nothing changed |
| Views.RemoveFavorite | backend/foodgram_backend/api/views.py:49-55 | 404 if the recipe or the pair is missing; otherwise removes only that pair |
| Views.AddFavoriteValid | backend/foodgram_backend/api/views.py:39-47 | adding a favourite keeps the store valid |
| Views.RemoveFavoriteValid | backend/foodgram_backend/api/views.py:49-55 | removing a favourite keeps the store valid |
| Views.FavoriteRoundTrip | backend/foodgram_backend/api/views.py:49-55 | removing a just-added favourite restores the store |
| Views.FavoriteTwice | backend/foodgram_backend/api/views.py:39-47 | a second identical favourite request fails with AlreadyFavorited and changes nothing |
| Views.Favorite | backend/foodgram_backend/api/views.py:39-47 | the action takes exactly the `AddFavorite` step on the store and keeps it valid |
| Views.DeleteFavorite | backend/foodgram_backend/api/views.py:49-55 | the action takes exactly the `RemoveFavorite` step on the store and keeps it valid |
| Views.AddToCart | backend/foodgram_backend/api/views.py:57-65 | passes iff the recipe exists and the pair is new, then adds exactly that pair; otherwise InvalidRecipe or AlreadyInCart with nothing changed |
| Views.RemoveFromCart | backend/foodgram_backend/api/views.py:67-75 | 404 if the recipe or the pair is missing; otherwise removes only that pair |
| Views.AddToCartValid | backend/foodgram_backend/api/views.py:57-65 | adding a cart entry keeps the store valid |
| Views.RemoveFromCartValid | backend/foodgram_backend/api/views.py:67-75 | removing a cart entry keeps the store valid |
| Views.CartRoundTrip | backend/foodgram_backend/api/views.py:67-75 | removing a just-added cart entry restores the store |
| Views.ShoppingCart | backend/foodgram_backend/api/views.py:57-65 | the action takes exactly the `AddToCart` step on the store and keeps it valid |
| Views.DeleteShoppingCart | backend/foodgram_backend/api/views.py:67-75 | the action takes exactly the `RemoveFromCart` step on the store and keeps it valid |
| Views.AddSubscription | backend/foodgram_backend/api/views.py:133-142 | 404 for an unknown author, UniqueViolation for an existing pair, otherwise adds exactly that pair, with no check that user differs from author |
| Views.RemoveSubscription | backend/foodgram_backend/api/views.py:144-151 | passes iff the author exists; the pair is then absent whether or not it was present, and nothing else changes |
| Views.AddSubscriptionValid | backend/foodgram_backend/api/views.py:133-142 | subscribing keeps the store valid |
| Views.RemoveSubscriptionValid | backend/foodgram_backend/api/views.py:144-151 | unsubscribing keeps the store valid |
| Views.SelfSubscriptionAccepted | backend/foodgram_backend/api/views.py:133-142 | following oneself succeeds through the action although the serializer's check would refuse it |
| Views.SubscriptionRoundTrip | backend/foodgram_backend/api/views.py:144-151 | unsubscribing right after subscribing restores the store |
| Views.RemoveSubscriptionIdempotent | backend/foodgram_backend/api/views.py:144-151 | a second unsubscribe gives the same answer and changes nothing |
| Views.Subscribe | backend/foodgram_backend/api/views.py:133-142 | the action takes exactly the `AddSubscription` step on the store and keeps it valid |
| Views.DeleteSubscribe | backend/foodgram_backend/api/views.py:144-151 | the action takes exactly the `RemoveSubscription` step on the store and keeps it valid |
| Views.PerformCreate | backend/foodgram_backend/api/views.py:36-37 | succeeds iff the serializer validates; then the new recipe's author is the requester, its name and text are the trimmed input, with the input's tags and one row per item; on error nothing changes |
| Views.CartGroupsCorrect | backend/foodgram_backend/api/views.py:81-86 | the user's shopping-list groups are the group-by sum over the rows of the recipes in their cart |
| Views.EmptyCartGroups | backend/foodgram_backend/api/views.py:81-86 | a user with no cart entries has no groups |
| Views.DownloadShoppingCart | backend/foodgram_backend/api/views.py:77-99 | the download is the header followed by one numbered line per group of the user's cart; with an empty cart it is the header alone |

## Left out

- Users are opaque ids. The framework user model, authentication, anonymous requests (the serializers' `return False` branches) and permissions are not modelled.
- The admin configuration, HTTP routing and the CSV loader command are not modelled, and neither is `Hex2NameColor`, which calls the `webcolors` library.
- Images and `Base64ImageField` are left out, as are the representation serializers, pagination, `FileResponse` with its Content-Disposition header, and timestamps.
- Transactions and concurrent writers are not modelled. Each operation is a sequence of steps on one store. In particular, the window in `update` between clearing the rows and inserting them again is not modelled.
- The order of the shopping-list groups, and the `ordering` options of the tables, are not modelled. Favourites, cart entries and subscriptions are sets.
- Integer widths are not modelled. Ids, amounts and cooking times are unbounded integers. Of the `max_length` limits, only the recipe name's is on the modelled write path and is modelled.
- `validate`'s own check of a cooking time below 1 is kept as written but is never reached for a present value: field validation (`Serializers.CheckCookingTime`) refuses such a value first, with the same `CookingTimeBelowOne`.
- `RecipeInput` always carries `name`, `text`, `tags` and `ingredients`. A request that leaves one of them out is refused by field validation ("This field is required"), and the model cannot express that input.
- `tags` must name existing tags. This is the primary-key field check, modelled as `UnknownTag`.
- The `tags` and `author` filters of the recipe list are declarative framework filters and are not modelled. So is the ingredient search filter.
- Serializers.Update: requires the patch to meet what field validation and `validate` enforce (known, non-empty tags; accepted, non-empty ingredients; a cooking time of at least 1; a trimmed, non-blank name of at most 16 characters and a trimmed, non-blank text), rather than running those checks on the update path. On a partial update, `validate` reads `data['tags']`, `data['ingredients']` and `data['cooking_time']`, which raises KeyError when a key is absent. That failure is not modelled.
- Views.PerformCreate: does not model the field-level check that `amount` and `id` are integers.
- Serializers.IsValid: reports one field error, the first in the order tags, name, text, cooking time. The framework collects the errors of all fields into one response.
- Serializers.ValidateRecipe: the `default=1` of `cooking_time` is never reached through the API. An absent cooking time makes `validate` fail with KeyError before any recipe is created. The model reports this as `MissingKey`, and it never inserts a default.
- Views.PerformCreate: answers `MissingKey("cooking_time")` where the server answers HTTP 500. The model does not distinguish a server error from a validation error beyond the error value.
