/**
 * The write path of the recipe API: RecipeCreateSerializer's validation,
 * creation and update-by-replacement, and the membership checks of the
 * favourite, shopping-cart and subscription serializers.
 */
module Serializers {
  import opened Results
  import opened Models

  /** One item of the `ingredients` field: an ingredient id and an amount. */
  datatype IngredientAmount = IngredientAmount(id: IngredientId, amount: int)

  /**
   * The writable fields of a recipe as the request sends them; field
   * validation trims `name` and `text` (`Cleaned`) before `validate` sees
   * them. `cooking_time` has a model default, so the request may leave it
   * out (None).
   */
  datatype RecipeInput = RecipeInput(name: string, text: string, cookingTime: Option<int>,
                                     tags: seq<TagId>, ingredients: seq<IngredientAmount>)

  /** The validated data handed to `update`: a key that is absent is None. */
  datatype RecipePatch = RecipePatch(name: Option<string>, text: Option<string>, cookingTime: Option<int>,
                                     tags: Option<seq<TagId>>, ingredients: Option<seq<IngredientAmount>>)

  /** Ingredient items that name existing ingredients, pairwise distinct, each with an amount of at least 1. */
  predicate ItemsAccepted(items: seq<IngredientAmount>, known: set<IngredientId>)
  {
    && (forall i :: 0 <= i < |items| ==> items[i].id in known && items[i].amount >= 1)
    && (forall i, j :: 0 <= i < j < |items| ==> items[i].id != items[j].id)
  }

  /** What `validate` lets through, stated declaratively. */
  predicate Accepted(data: RecipeInput, known: set<IngredientId>)
  {
    && |data.tags| > 0
    && |data.ingredients| > 0
    && ItemsAccepted(data.ingredients, known)
    && data.cookingTime.Some?
    && data.cookingTime.value >= 1
  }

  /**
   * The loop of `validate` from some item on, given the ids already seen:
   * for each item, a missing ingredient (404), then a repeat, then the amount.
   */
  function CheckItems(items: seq<IngredientAmount>, known: set<IngredientId>, seen: seq<IngredientId>): Outcome
  {
    if items == [] then Pass
    else if items[0].id !in known then Fail(NotFound)
    else if items[0].id in seen then Fail(DuplicateIngredient(items[0].id))
    else if items[0].amount < 1 then Fail(AmountBelowOne(items[0].id))
    else CheckItems(items[1..], known, seen + [items[0].id])
  }

  /** `validate` in the order it checks: tags, ingredients, each item, cooking time. */
  function RecipeCheck(data: RecipeInput, known: set<IngredientId>): Outcome
  {
    if |data.tags| == 0 then Fail(NoTags)
    else if |data.ingredients| == 0 then Fail(NoIngredients)
    else if CheckItems(data.ingredients, known, []).Fail? then CheckItems(data.ingredients, known, [])
    else if data.cookingTime.None? then Fail(MissingKey("cooking_time"))
    else if data.cookingTime.value < 1 then Fail(CookingTimeBelowOne)
    else Pass
  }

  lemma {:induction false} CheckItemsPass(items: seq<IngredientAmount>, known: set<IngredientId>, seen: seq<IngredientId>)
    ensures CheckItems(items, known, seen).Pass? <==>
              ItemsAccepted(items, known) && forall i :: 0 <= i < |items| ==> items[i].id !in seen
  {
    if items != [] {
      var tail := items[1..];
      var seen' := seen + [items[0].id];
      CheckItemsPass(tail, known, seen');
      if ItemsAccepted(items, known) && forall i :: 0 <= i < |items| ==> items[i].id !in seen {
        forall i | 0 <= i < |tail| ensures tail[i].id !in seen' {
          assert tail[i] == items[i + 1];
        }
        forall i, j | 0 <= i < j < |tail| ensures tail[i].id != tail[j].id {
          assert tail[i] == items[i + 1] && tail[j] == items[j + 1];
        }
      }
      if CheckItems(items, known, seen).Pass? {
        forall i | 0 <= i < |items| ensures items[i].id in known && items[i].amount >= 1 && items[i].id !in seen {
          if i > 0 { assert items[i] == tail[i - 1]; }
        }
        forall i, j | 0 <= i < j < |items| ensures items[i].id != items[j].id {
          assert items[j] == tail[j - 1];
          if i > 0 { assert items[i] == tail[i - 1]; }
        }
      }
    }
  }

  /** `validate` succeeds exactly on the inputs that meet every rule. */
  lemma RecipeCheckAccepts(data: RecipeInput, known: set<IngredientId>)
    ensures RecipeCheck(data, known).Pass? <==> Accepted(data, known)
  {
    CheckItemsPass(data.ingredients, known, []);
  }

  lemma {:induction false} CheckItemsBlames(items: seq<IngredientAmount>, known: set<IngredientId>, seen: seq<IngredientId>)
    ensures var r := CheckItems(items, known, seen);
      && (r.Pass? || r.error.NotFound? || r.error.DuplicateIngredient? || r.error.AmountBelowOne?)
      && (r == Fail(NotFound) ==> exists i :: 0 <= i < |items| && items[i].id !in known)
      && (r.Fail? && r.error.DuplicateIngredient? ==>
            exists i :: 0 <= i < |items| && items[i].id == r.error.ingredient &&
              (r.error.ingredient in seen || exists j :: 0 <= j < i && items[j].id == r.error.ingredient))
      && (r.Fail? && r.error.AmountBelowOne? ==>
            exists i :: 0 <= i < |items| && items[i].id == r.error.ingredient && items[i].amount < 1)
  {
    if items != [] {
      var tail := items[1..];
      var seen' := seen + [items[0].id];
      var r := CheckItems(items, known, seen);
      if items[0].id in known && items[0].id !in seen && items[0].amount >= 1 {
        CheckItemsBlames(tail, known, seen');
        assert r == CheckItems(tail, known, seen');
        if r == Fail(NotFound) {
          var i :| 0 <= i < |tail| && tail[i].id !in known;
          assert items[i + 1] == tail[i];
        }
        if r.Fail? && r.error.DuplicateIngredient? {
          var x := r.error.ingredient;
          var i :| 0 <= i < |tail| && tail[i].id == x &&
            (x in seen' || exists j :: 0 <= j < i && tail[j].id == x);
          assert items[i + 1] == tail[i];
          if x in seen' && x !in seen {
            assert items[0].id == x;
          } else if x !in seen' {
            var j :| 0 <= j < i && tail[j].id == x;
            assert items[j + 1] == tail[j];
          }
        }
        if r.Fail? && r.error.AmountBelowOne? {
          var i :| 0 <= i < |tail| && tail[i].id == r.error.ingredient && tail[i].amount < 1;
          assert items[i + 1] == tail[i];
        }
      }
    }
  }

  /**
   * Every error `validate` raises names a rule the input really breaks:
   * a missing tag list, a missing ingredient list, an unknown id, a repeated
   * id, an amount below 1, or (only once every item passed) a missing or
   * below-1 cooking time.
   */
  lemma RecipeCheckBlames(data: RecipeInput, known: set<IngredientId>)
    ensures var r := RecipeCheck(data, known);
      && (r == Fail(NoTags) ==> |data.tags| == 0)
      && (r == Fail(NoIngredients) ==> |data.tags| > 0 && |data.ingredients| == 0)
      && (r == Fail(NotFound) ==> exists i :: 0 <= i < |data.ingredients| && data.ingredients[i].id !in known)
      && (r.Fail? && r.error.DuplicateIngredient? ==>
            exists i, j :: 0 <= j < i < |data.ingredients| &&
              data.ingredients[i].id == r.error.ingredient && data.ingredients[j].id == r.error.ingredient)
      && (r.Fail? && r.error.AmountBelowOne? ==>
            exists i :: 0 <= i < |data.ingredients| && data.ingredients[i].id == r.error.ingredient &&
              data.ingredients[i].amount < 1)
      && (r.Fail? && r.error.MissingKey? ==> data.cookingTime.None? && ItemsAccepted(data.ingredients, known))
      && (r == Fail(CookingTimeBelowOne) ==>
            data.cookingTime.Some? && data.cookingTime.value < 1 && ItemsAccepted(data.ingredients, known))
  {
    CheckItemsBlames(data.ingredients, known, []);
    CheckItemsPass(data.ingredients, known, []);
  }

  /**
   * RecipeCreateSerializer.validate: the checks run in the source's order;
   * accepted data is returned unchanged.
   */
  method ValidateRecipe(s: Store, data: RecipeInput) returns (r: Result<RecipeInput>)
    ensures r.Ok? <==> Accepted(data, s.ingredients.Keys)
    ensures r.Ok? ==> r.value == data
    ensures r.Err? ==> RecipeCheck(data, s.ingredients.Keys) == Fail(r.error)
  {
    ghost var known := s.ingredients.Keys;
    RecipeCheckAccepts(data, known);
    if |data.tags| == 0 {
      return Err(NoTags);
    }
    var ingredientsList: seq<IngredientId> := [];
    if |data.ingredients| == 0 {
      return Err(NoIngredients);
    }
    var i := 0;
    while i < |data.ingredients|
      invariant 0 <= i <= |data.ingredients|
      invariant CheckItems(data.ingredients, known, []) == CheckItems(data.ingredients[i..], known, ingredientsList)
    {
      var value := data.ingredients[i];
      assert data.ingredients[i..][0] == value;
      if value.id !in s.ingredients {
        return Err(NotFound);
      }
      if value.id in ingredientsList {
        return Err(DuplicateIngredient(value.id));
      }
      if value.amount < 1 {
        return Err(AmountBelowOne(value.id));
      }
      assert data.ingredients[i..][1..] == data.ingredients[i + 1..];
      ingredientsList := ingredientsList + [value.id];
      i := i + 1;
    }
    if data.cookingTime.None? {
      return Err(MissingKey("cooking_time"));
    }
    if data.cookingTime.value < 1 {
      return Err(CookingTimeBelowOne);
    }
    r := Ok(data);
  }

  /** The rows `create_ingredients` builds: one (recipe, id, amount) per item, in input order. */
  function RowsFor(recipe: RecipeId, items: seq<IngredientAmount>): seq<IngredientInRecipe>
  {
    seq(|items|, k requires 0 <= k < |items| => IngredientInRecipe(recipe, items[k].id, items[k].amount))
  }

  lemma {:induction false} RowsOfNone(rows: seq<IngredientInRecipe>, id: RecipeId)
    requires forall x :: x in rows ==> x.recipe != id
    ensures RowsOf(rows, id) == []
  {
    if rows != [] {
      assert rows[0] in rows;
      RowsOfNone(rows[1..], id);
    }
  }

  lemma {:induction false} RowsOfAll(rows: seq<IngredientInRecipe>, id: RecipeId)
    requires forall x :: x in rows ==> x.recipe == id
    ensures RowsOf(rows, id) == rows
  {
    if rows != [] {
      assert rows[0] in rows;
      RowsOfAll(rows[1..], id);
    }
  }

  /** Bulk-inserting accepted items for a recipe that has no rows keeps every constraint. */
  lemma BulkCreateValid(db: Database, recipe: RecipeId, items: seq<IngredientAmount>)
    requires db.Valid()
    requires recipe in db.recipes
    requires forall x :: x in db.recipeIngredients ==> x.recipe != recipe
    requires ItemsAccepted(items, db.ingredients.Keys)
    ensures db.(recipeIngredients := db.recipeIngredients + RowsFor(recipe, items)).Valid()
  {
    var a := db.recipeIngredients;
    var b := RowsFor(recipe, items);
    var s := a + b;
    forall i, j | 0 <= i < j < |s|
      ensures s[i].recipe != s[j].recipe || s[i].ingredient != s[j].ingredient
    {
      if j < |a| {
        assert s[i] == a[i] && s[j] == a[j];
      } else if i < |a| {
        assert s[i] == a[i] && a[i] in a;
        assert s[j] == b[j - |a|];
      } else {
        assert s[i] == b[i - |a|] && s[j] == b[j - |a|];
      }
    }
    forall i | 0 <= i < |s|
      ensures s[i].amount >= 1 && s[i].recipe in db.recipes && s[i].ingredient in db.ingredients
    {
      if i < |a| {
        assert s[i] == a[i];
      } else {
        assert s[i] == b[i - |a|];
      }
    }
  }

  /**
   * RecipeCreateSerializer.create_ingredients: build the rows one per item,
   * then insert them all at once.
   */
  method CreateIngredients(s: Store, items: seq<IngredientAmount>, recipe: RecipeId)
    requires s.Valid()
    requires recipe in s.recipes
    requires forall x :: x in s.recipeIngredients ==> x.recipe != recipe
    requires ItemsAccepted(items, s.ingredients.Keys)
    modifies s
    ensures s.Valid()
    ensures s.State() == old(s.State()).(recipeIngredients := old(s.recipeIngredients) + RowsFor(recipe, items))
  {
    var listObj: seq<IngredientInRecipe> := [];
    for i := 0 to |items|
      invariant |listObj| == i
      invariant forall k :: 0 <= k < i ==> listObj[k] == IngredientInRecipe(recipe, items[k].id, items[k].amount)
    {
      listObj := listObj + [IngredientInRecipe(recipe, items[i].id, items[i].amount)];
    }
    assert listObj == RowsFor(recipe, items);
    BulkCreateValid(s.State(), recipe, items);
    s.recipeIngredients := s.recipeIngredients + listObj;
  }

  /**
   * RecipeCreateSerializer.create: insert the recipe under the next id, set
   * its tags to the input tags, then insert one row per ingredient item.
   */
  method Create(s: Store, data: RecipeInput, author: UserId) returns (id: RecipeId)
    requires s.Valid()
    requires Accepted(data, s.ingredients.Keys)
    requires forall t :: t in data.tags ==> t in s.tags
    requires author in s.users
    modifies s
    ensures s.Valid()
    ensures id == old(s.nextRecipeId) && id !in old(s.recipes)
    ensures s.State() == old(s.State()).(
              recipes := old(s.recipes)[id := Recipe(data.name, author, data.text, data.cookingTime.value, set t | t in data.tags)],
              recipeIngredients := old(s.recipeIngredients) + RowsFor(id, data.ingredients),
              nextRecipeId := id + 1)
    ensures RowsOf(s.recipeIngredients, id) == RowsFor(id, data.ingredients)
  {
    ghost var db := s.State();
    id := s.nextRecipeId;
    s.recipes := s.recipes[id := Recipe(data.name, author, data.text, data.cookingTime.value, {})];
    s.nextRecipeId := id + 1;
    var tags := set t | t in data.tags;
    s.recipes := s.recipes[id := s.recipes[id].(tags := tags)];
    ghost var rec := Recipe(data.name, author, data.text, data.cookingTime.value, tags);
    assert RecipeFits(rec, db.users, db.tags) by {
      forall t | t in tags ensures t in db.tags {
        assert t in data.tags;
      }
    }
    InsertRecipeValid(db, rec);
    assert s.State() == db.(recipes := db.recipes[id := rec], nextRecipeId := id + 1);
    FreshRows(s.recipeIngredients, id, data.ingredients);
    CreateIngredients(s, data.ingredients, id);
  }

  /** Rows appended for a recipe that had none are then exactly its rows. */
  lemma FreshRows(before: seq<IngredientInRecipe>, id: RecipeId, items: seq<IngredientAmount>)
    requires forall x :: x in before ==> x.recipe != id
    ensures RowsOf(before + RowsFor(id, items), id) == RowsFor(id, items)
  {
    RowsOfAppend(before, RowsFor(id, items), id);
    RowsOfNone(before, id);
    RowsOfAll(RowsFor(id, items), id);
  }

  /** The recipe after `update` has set the attributes whose keys are present. */
  function Patched(r: Recipe, patch: RecipePatch): Recipe
  {
    r.(name := patch.name.GetOr(r.name),
       text := patch.text.GetOr(r.text),
       cookingTime := patch.cookingTime.GetOr(r.cookingTime),
       tags := if patch.tags.Some? then set t | t in patch.tags.value else r.tags)
  }

  /**
   * The `ingredients` branch of `update`: clear the recipe's rows, then bulk
   * insert the new ones. Afterwards the recipe's rows are exactly the new
   * list and every other recipe keeps its rows.
   */
  method ReplaceIngredients(s: Store, id: RecipeId, items: seq<IngredientAmount>)
    requires s.Valid()
    requires id in s.recipes
    requires ItemsAccepted(items, s.ingredients.Keys)
    modifies s
    ensures s.Valid()
    ensures s.State() == old(s.State()).(
              recipeIngredients := WithoutRecipes(old(s.recipeIngredients), {id}) + RowsFor(id, items))
    ensures RowsOf(s.recipeIngredients, id) == RowsFor(id, items)
    ensures forall other :: other != id ==> RowsOf(s.recipeIngredients, other) == RowsOf(old(s.recipeIngredients), other)
  {
    ghost var before := s.recipeIngredients;
    ClearRowsValid(s.State(), id);
    s.recipeIngredients := WithoutRecipes(s.recipeIngredients, {id});
    CreateIngredients(s, items, id);
    forall other ensures RowsOf(s.recipeIngredients, other) == if other == id then RowsFor(id, items) else RowsOf(before, other) {
      RowsOfAppend(WithoutRecipes(before, {id}), RowsFor(id, items), other);
      WithoutRecipesRowsOf(before, {id}, other);
      if other == id {
        RowsOfAll(RowsFor(id, items), id);
      } else {
        RowsOfNone(RowsFor(id, items), other);
      }
    }
  }

  /**
   * RecipeCreateSerializer.update: replace the ingredient rows when
   * `ingredients` is present, replace the tag set when `tags` is present,
   * then set the remaining attributes that are present.
   */
  method Update(s: Store, id: RecipeId, patch: RecipePatch)
    requires s.Valid()
    requires id in s.recipes
    requires patch.ingredients.Some? ==> |patch.ingredients.value| > 0 && ItemsAccepted(patch.ingredients.value, s.ingredients.Keys)
    requires patch.tags.Some? ==> |patch.tags.value| > 0 && forall t :: t in patch.tags.value ==> t in s.tags
    requires patch.cookingTime.Some? ==> patch.cookingTime.value >= 1
    requires patch.name.Some? ==> Trimmed(patch.name.value) && |patch.name.value| <= NameMaxLength
    requires patch.text.Some? ==> Trimmed(patch.text.value)
    modifies s
    ensures s.Valid()
    ensures s.State() == old(s.State()).(
              recipes := old(s.recipes)[id := Patched(old(s.recipes)[id], patch)],
              recipeIngredients := if patch.ingredients.Some?
                                   then WithoutRecipes(old(s.recipeIngredients), {id}) + RowsFor(id, patch.ingredients.value)
                                   else old(s.recipeIngredients))
    ensures RowsOf(s.recipeIngredients, id) ==
              if patch.ingredients.Some? then RowsFor(id, patch.ingredients.value) else RowsOf(old(s.recipeIngredients), id)
    ensures forall other :: other != id ==> RowsOf(s.recipeIngredients, other) == RowsOf(old(s.recipeIngredients), other)
  {
    if patch.ingredients.Some? {
      ReplaceIngredients(s, id, patch.ingredients.value);
    }
    SetAttributes(s, id, patch);
  }

  /**
   * The rest of `update`: set the tags when `tags` is present, then
   * `super().update` sets each remaining attribute whose key is present.
   */
  method SetAttributes(s: Store, id: RecipeId, patch: RecipePatch)
    requires s.Valid()
    requires id in s.recipes
    requires patch.tags.Some? ==> forall t :: t in patch.tags.value ==> t in s.tags
    requires patch.cookingTime.Some? ==> patch.cookingTime.value >= 1
    modifies s
    ensures s.Valid()
    ensures s.State() == old(s.State()).(recipes := old(s.recipes)[id := Patched(old(s.recipes)[id], patch)])
  {
    ghost var db := s.State();
    if patch.tags.Some? {
      s.recipes := s.recipes[id := s.recipes[id].(tags := set t | t in patch.tags.value)];
    }
    var instance := s.recipes[id];
    s.recipes := s.recipes[id := instance.(name := patch.name.GetOr(instance.name),
                                           text := patch.text.GetOr(instance.text),
                                           cookingTime := patch.cookingTime.GetOr(instance.cookingTime))];
    assert s.recipes[id] == Patched(db.recipes[id], patch);
    PatchedFits(db, id, patch);
    ReplaceRecipeValid(db, id, s.recipes[id]);
  }

  /** A patch that meets the validators leaves a recipe that still fits the store. */
  lemma PatchedFits(db: Database, id: RecipeId, patch: RecipePatch)
    requires db.Valid() && id in db.recipes
    requires patch.tags.Some? ==> forall t :: t in patch.tags.value ==> t in db.tags
    requires patch.cookingTime.Some? ==> patch.cookingTime.value >= 1
    ensures RecipeFits(Patched(db.recipes[id], patch), db.users, db.tags)
  {
    assert RecipeFits(db.recipes[id], db.users, db.tags);
    if patch.tags.Some? {
      forall t | t in Patched(db.recipes[id], patch).tags ensures t in db.tags {
        assert t in patch.tags.value;
      }
    }
  }

  /** IsFavoriteSerializer.validate: an existing (user, recipe) pair is refused. */
  function FavoriteValidate(favorites: set<UserRecipe>, user: UserId, recipe: RecipeId): (r: Outcome)
    ensures r.Pass? <==> UserRecipe(user, recipe) !in favorites
    ensures r.Fail? ==> r.error == AlreadyFavorited
  {
    if UserRecipe(user, recipe) in favorites then Fail(AlreadyFavorited) else Pass
  }

  /** IsInShoppingSerializer.validate: an existing (user, recipe) pair is refused. */
  function ShoppingCartValidate(shoppingCarts: set<UserRecipe>, user: UserId, recipe: RecipeId): (r: Outcome)
    ensures r.Pass? <==> UserRecipe(user, recipe) !in shoppingCarts
    ensures r.Fail? ==> r.error == AlreadyInCart
  {
    if UserRecipe(user, recipe) in shoppingCarts then Fail(AlreadyInCart) else Pass
  }

  /** IsSubscribedSerializer.validate: following oneself is refused first, then an existing pair. */
  function SubscriptionValidate(subscriptions: set<Subscription>, user: UserId, author: UserId): (r: Outcome)
    ensures r.Pass? <==> user != author && Subscription(user, author) !in subscriptions
    ensures user == author ==> r == Fail(SelfSubscription)
    ensures user != author && Subscription(user, author) in subscriptions ==> r == Fail(AlreadySubscribed)
  {
    if user == author then Fail(SelfSubscription)
    else if Subscription(user, author) in subscriptions then Fail(AlreadySubscribed)
    else Pass
  }

  /** Field validation of `tags` (a primary-key field): the first id, in input order, that names no tag. */
  function FirstUnknownTag(tags: seq<TagId>, known: set<TagId>): (r: Option<TagId>)
    ensures r.None? <==> forall i :: 0 <= i < |tags| ==> tags[i] in known
    ensures r.Some? ==> r.value in tags && r.value !in known
  {
    if tags == [] then None
    else if tags[0] !in known then Some(tags[0])
    else FirstUnknownTag(tags[1..], known)
  }

  // ---------------------------------------------------------------------
  // The CharFields `name` and `text`: whitespace is trimmed, a blank value is
  // refused and `name` holds at most 16 characters (recipes/models.py).

  /** `name` is a `CharField(max_length=16)`. */
  const NameMaxLength: nat := 16

  /** The characters Python's `str.strip` removes (`str.isspace`). */
  predicate IsSpace(c: char)
  {
    || c == ' ' || c == '\t' || c == '\n' || c == '\r' || c == '\U{0B}' || c == '\U{0C}'
    || ('\U{1C}' <= c <= '\U{1F}') || c == '\U{85}' || c == '\U{A0}' || c == '\U{1680}'
    || ('\U{2000}' <= c <= '\U{200A}') || c == '\U{2028}' || c == '\U{2029}' || c == '\U{202F}'
    || c == '\U{205F}' || c == '\U{3000}'
  }

  /** A value made of whitespace only, which the field refuses as blank. */
  predicate Blank(s: string)
  {
    forall i :: 0 <= i < |s| ==> IsSpace(s[i])
  }

  /** The number of whitespace characters at the start of `s`. */
  function LeadingSpaces(s: string): (n: nat)
    ensures n <= |s|
    ensures forall i :: 0 <= i < n ==> IsSpace(s[i])
    ensures n < |s| ==> !IsSpace(s[n])
  {
    if s == [] || !IsSpace(s[0]) then 0 else 1 + LeadingSpaces(s[1..])
  }

  /** The number of whitespace characters at the end of `s`. */
  function TrailingSpaces(s: string): (n: nat)
    ensures n <= |s|
    ensures forall i :: |s| - n <= i < |s| ==> IsSpace(s[i])
    ensures n < |s| ==> !IsSpace(s[|s| - n - 1])
  {
    if s == [] || !IsSpace(s[|s| - 1]) then 0 else 1 + TrailingSpaces(s[..|s| - 1])
  }

  /**
   * `trim_whitespace`: the value without its leading and trailing whitespace.
   * Nothing is left exactly when the value is blank; otherwise what is left
   * neither starts nor ends with whitespace.
   */
  function Trim(s: string): (r: string)
    ensures |r| <= |s|
    ensures r == [] <==> Blank(s)
    ensures r != [] ==> !IsSpace(r[0]) && !IsSpace(r[|r| - 1])
  {
    var front := LeadingSpaces(s);
    var rest := s[front..];
    rest[..|rest| - TrailingSpaces(rest)]
  }

  /** What field validation leaves of a CharField value: not blank, and already trimmed. */
  predicate Trimmed(v: string)
  {
    v != [] && !IsSpace(v[0]) && !IsSpace(v[|v| - 1])
  }

  /** Trimming twice trims no more. */
  lemma TrimIdempotent(s: string)
    ensures Trim(Trim(s)) == Trim(s)
  {
    var r := Trim(s);
    if r != [] {
      TrimPadded([], r, []);
      assert [] + r + [] == r;
    }
  }

  /** Whitespace around a value that neither starts nor ends with whitespace is all that trimming removes. */
  lemma {:induction false} TrimPadded(before: string, value: string, after: string)
    requires Blank(before) && Blank(after)
    requires value != [] && !IsSpace(value[0]) && !IsSpace(value[|value| - 1])
    ensures Trim(before + value + after) == value
  {
    var s := before + value + after;
    LeadingSpacesOf(before, value + after);
    assert s == before + (value + after);
    assert s[|before|..] == value + after;
    TrailingSpacesOf(value, after);
    assert (value + after)[..|value|] == value;
  }

  lemma {:induction false} LeadingSpacesOf(spaces: string, rest: string)
    requires Blank(spaces)
    requires rest != [] && !IsSpace(rest[0])
    ensures LeadingSpaces(spaces + rest) == |spaces|
  {
    if spaces != [] {
      assert (spaces + rest)[1..] == spaces[1..] + rest;
      LeadingSpacesOf(spaces[1..], rest);
    }
  }

  lemma {:induction false} TrailingSpacesOf(rest: string, spaces: string)
    requires Blank(spaces)
    requires rest != [] && !IsSpace(rest[|rest| - 1])
    ensures TrailingSpaces(rest + spaces) == |spaces|
  {
    if spaces != [] {
      var s := rest + spaces;
      assert s[..|s| - 1] == rest + spaces[..|spaces| - 1];
      TrailingSpacesOf(rest, spaces[..|spaces| - 1]);
    }
  }

  /** The field validation of `name` and `text` lets a value through. */
  predicate TextAccepted(data: RecipeInput)
  {
    !Blank(data.name) && !Blank(data.text) && |Trim(data.name)| <= NameMaxLength
  }

  /** Field validation of `name`, then of `text`: blank first, then length. */
  function CheckText(data: RecipeInput): (r: Outcome)
    ensures r.Pass? <==> TextAccepted(data)
    ensures r == Fail(BlankField("name")) <==> Blank(data.name)
    ensures r == Fail(TooLong("name")) <==> !Blank(data.name) && |Trim(data.name)| > NameMaxLength
    ensures r == Fail(BlankField("text")) ==> Blank(data.text)
  {
    if Trim(data.name) == [] then Fail(BlankField("name"))
    else if |Trim(data.name)| > NameMaxLength then Fail(TooLong("name"))
    else if Trim(data.text) == [] then Fail(BlankField("text"))
    else Pass
  }

  /** The data after field validation: `name` and `text` trimmed, the rest as sent. */
  function Cleaned(data: RecipeInput): RecipeInput
  {
    data.(name := Trim(data.name), text := Trim(data.text))
  }

  /**
   * Field validation of `cooking_time`: the model's `MinValueValidator(1)`
   * becomes the field's `min_value`, checked before `validate` runs. An
   * absent value passes here, since the field has a model default.
   */
  function CheckCookingTime(data: RecipeInput): (r: Outcome)
    ensures r.Pass? <==> data.cookingTime.None? || data.cookingTime.value >= 1
    ensures r.Fail? ==> r.error == CookingTimeBelowOne
  {
    if data.cookingTime.Some? && data.cookingTime.value < 1 then Fail(CookingTimeBelowOne) else Pass
  }

  /**
   * `is_valid` of RecipeCreateSerializer: the field validation of `tags`,
   * `name`, `text` and `cooking_time`, then `validate` on the trimmed data.
   * It passes exactly on input whose tags all exist, whose name and text are
   * not blank, whose trimmed name fits 16 characters and that `validate`
   * accepts. A cooking time below 1 is refused before any ingredient is
   * looked up.
   */
  function IsValid(data: RecipeInput, tags: set<TagId>, known: set<IngredientId>): (r: Outcome)
    ensures r.Pass? <==> (forall t :: t in data.tags ==> t in tags) && TextAccepted(data) && Accepted(data, known)
    ensures ((forall t :: t in data.tags ==> t in tags) && TextAccepted(data) &&
             data.cookingTime.Some? && data.cookingTime.value < 1) ==> r == Fail(CookingTimeBelowOne)
  {
    RecipeCheckAccepts(Cleaned(data), known);
    match FirstUnknownTag(data.tags, tags)
    case Some(t) => Fail(UnknownTag(t))
    case None =>
      if CheckText(data).Fail? then CheckText(data)
      else if CheckCookingTime(data).Fail? then CheckCookingTime(data)
      else RecipeCheck(Cleaned(data), known)
  }

  /** A cooking time of 0 is refused as such, even when an ingredient is unknown too. */
  lemma CookingTimeBeforeItems()
    ensures IsValid(RecipeInput("a", "b", Some(0), [1], [IngredientAmount(9, 1)]), {1}, {}) == Fail(CookingTimeBelowOne)
  {
    var data := RecipeInput("a", "b", Some(0), [1], [IngredientAmount(9, 1)]);
    assert !IsSpace(data.name[0]) && !IsSpace(data.text[0]);
  }

  /** A name sent with surrounding spaces is stored trimmed. */
  lemma PaddedNameTrimmed()
    ensures Trim(" Borscht ") == "Borscht"
  {
    var name := "Borscht";
    assert !IsSpace(name[0]) && !IsSpace(name[6]);
    assert " Borscht " == " " + name + " ";
    TrimPadded(" ", name, " ");
  }

  /** Such a name passes field validation; a name of spaces is refused as blank. */
  lemma PaddedNameExample()
    ensures CheckText(RecipeInput(" Borscht ", "Beets.", Some(60), [1], [IngredientAmount(1, 1)])) == Pass
    ensures CheckText(RecipeInput("   ", "Beets.", Some(60), [1], [IngredientAmount(1, 1)])) == Fail(BlankField("name"))
  {
    PaddedNameTrimmed();
    var name := " Borscht ";
    var text := "Beets.";
    assert !IsSpace(name[1]);
    assert !IsSpace(text[0]);
    var blank := "   ";
    assert IsSpace(blank[0]) && IsSpace(blank[1]) && IsSpace(blank[2]);
  }
}
