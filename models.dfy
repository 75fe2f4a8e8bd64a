/**
 * The tables of the recipes app and the rules its model declarations impose:
 * the unique constraints, the minimum-value validators and the on_delete rules.
 *
 * A user is an opaque id. Pair tables (favourites, shopping carts,
 * subscriptions) are sets, so a unique pair constraint holds by construction;
 * the ingredient rows of recipes are a sequence in insertion order, and their
 * `unique_ingredient` constraint is an invariant of the store.
 */
module Models {
  import opened Results

  type UserId = int
  type IngredientId = int
  type TagId = int
  type RecipeId = int

  datatype Ingredient = Ingredient(name: string, measurementUnit: string)

  /** A recipe row together with its many-to-many tag set. */
  datatype Recipe = Recipe(name: string, author: UserId, text: string, cookingTime: int, tags: set<TagId>)

  /** A row of IngredientInRecipe: how much of one ingredient one recipe uses. */
  datatype IngredientInRecipe = IngredientInRecipe(recipe: RecipeId, ingredient: IngredientId, amount: int)

  /** A row of IsFavorite or IsInShoppingCart. */
  datatype UserRecipe = UserRecipe(user: UserId, recipe: RecipeId)

  /** A row of IsSubscribed: `user` follows `author`. */
  datatype Subscription = Subscription(user: UserId, author: UserId)

  /** The `unique_ingredient` constraint on (recipe, ingredient). */
  predicate UniqueIngredientRows(rows: seq<IngredientInRecipe>)
  {
    forall i, j :: 0 <= i < j < |rows| ==>
      rows[i].recipe != rows[j].recipe || rows[i].ingredient != rows[j].ingredient
  }

  /** Ingredient rows: unique per recipe, amount at least 1, both foreign keys resolve. */
  predicate RowsValid(rows: seq<IngredientInRecipe>, recipes: map<RecipeId, Recipe>,
                      ingredients: map<IngredientId, Ingredient>)
  {
    && UniqueIngredientRows(rows)
    && forall i :: 0 <= i < |rows| ==>
         rows[i].amount >= 1 && rows[i].recipe in recipes && rows[i].ingredient in ingredients
  }

  /** Recipes: cooking time at least 1, author and tags resolve, ids below the next auto-increment value. */
  predicate RecipesValid(recipes: map<RecipeId, Recipe>, users: set<UserId>, tags: set<TagId>,
                         nextRecipeId: RecipeId)
  {
    forall id :: id in recipes ==>
      && id < nextRecipeId
      && recipes[id].cookingTime >= 1
      && recipes[id].author in users
      && recipes[id].tags <= tags
  }

  predicate PairsValid(pairs: set<UserRecipe>, users: set<UserId>, recipes: map<RecipeId, Recipe>)
  {
    forall p :: p in pairs ==> p.user in users && p.recipe in recipes
  }

  predicate SubscriptionsValid(subscriptions: set<Subscription>, users: set<UserId>)
  {
    forall f :: f in subscriptions ==> f.user in users && f.author in users
  }

  /** The rows of `rows` whose recipe is not in `gone`, in their order. */
  function WithoutRecipes(rows: seq<IngredientInRecipe>, gone: set<RecipeId>): (r: seq<IngredientInRecipe>)
    ensures forall x :: x in r <==> x in rows && x.recipe !in gone
    ensures |r| <= |rows|
  {
    if rows == [] then []
    else if rows[0].recipe in gone then WithoutRecipes(rows[1..], gone)
    else [rows[0]] + WithoutRecipes(rows[1..], gone)
  }

  /** The rows of one recipe, in their order. */
  function RowsOf(rows: seq<IngredientInRecipe>, recipe: RecipeId): (r: seq<IngredientInRecipe>)
    ensures forall x :: x in r <==> x in rows && x.recipe == recipe
    ensures |r| <= |rows|
  {
    if rows == [] then []
    else if rows[0].recipe == recipe then [rows[0]] + RowsOf(rows[1..], recipe)
    else RowsOf(rows[1..], recipe)
  }

  function PairsWithout(pairs: set<UserRecipe>, gone: set<RecipeId>): set<UserRecipe>
  {
    set p | p in pairs && p.recipe !in gone
  }

  /** The recipes that `user` has in a favourite or shopping-cart table. */
  function RecipesOf(pairs: set<UserRecipe>, user: UserId): set<RecipeId>
  {
    set p | p in pairs && p.user == user :: p.recipe
  }

  /** Whether some ingredient row still points at `ingredient`. */
  predicate Referenced(rows: seq<IngredientInRecipe>, ingredient: IngredientId)
  {
    exists i :: 0 <= i < |rows| && rows[i].ingredient == ingredient
  }

  /** A snapshot of every table. */
  datatype Database = Database(
    users: set<UserId>,
    ingredients: map<IngredientId, Ingredient>,
    tags: set<TagId>,
    recipes: map<RecipeId, Recipe>,
    recipeIngredients: seq<IngredientInRecipe>,
    favorites: set<UserRecipe>,
    shoppingCarts: set<UserRecipe>,
    subscriptions: set<Subscription>,
    nextRecipeId: RecipeId)
  {
    /** Every constraint, validator and foreign key of the model declarations. */
    predicate Valid()
    {
      && RecipesValid(recipes, users, tags, nextRecipeId)
      && RowsValid(recipeIngredients, recipes, ingredients)
      && PairsValid(favorites, users, recipes)
      && PairsValid(shoppingCarts, users, recipes)
      && SubscriptionsValid(subscriptions, users)
    }

    /**
     * Deleting recipes: on_delete=CASCADE from IngredientInRecipe, IsFavorite
     * and IsInShoppingCart removes the rows that point at them.
     */
    function DeleteRecipes(gone: set<RecipeId>): Database
    {
      this.(recipes := recipes - gone,
            recipeIngredients := WithoutRecipes(recipeIngredients, gone),
            favorites := PairsWithout(favorites, gone),
            shoppingCarts := PairsWithout(shoppingCarts, gone))
    }

    /**
     * Deleting a user: their recipes go (with those recipes' cascades), and so
     * do their favourites, cart entries and subscriptions in both directions.
     */
    function DeleteUser(u: UserId): Database
    {
      var authored := set id | id in recipes && recipes[id].author == u;
      var d := DeleteRecipes(authored);
      d.(users := users - {u},
         favorites := (set p | p in d.favorites && p.user != u),
         shoppingCarts := (set p | p in d.shoppingCarts && p.user != u),
         subscriptions := (set f | f in subscriptions && f.user != u && f.author != u))
    }

    /** Deleting an ingredient: on_delete=PROTECT refuses while a row refers to it. */
    function DeleteIngredient(id: IngredientId): Result<Database>
    {
      if id !in ingredients then Err(NotFound)
      else if Referenced(recipeIngredients, id) then Err(ProtectedReference)
      else Ok(this.(ingredients := ingredients - {id}))
    }
  }

  lemma {:induction false} UniqueCons(x: IngredientInRecipe, t: seq<IngredientInRecipe>)
    requires UniqueIngredientRows(t)
    requires forall y :: y in t ==> y.recipe != x.recipe || y.ingredient != x.ingredient
    ensures UniqueIngredientRows([x] + t)
  {
    var s := [x] + t;
    forall i, j | 0 <= i < j < |s|
      ensures s[i].recipe != s[j].recipe || s[i].ingredient != s[j].ingredient
    {
      if i == 0 {
        assert s[j] == t[j - 1];
        assert s[j] in t;
      } else {
        assert s[i] == t[i - 1] && s[j] == t[j - 1];
      }
    }
  }

  lemma {:induction false} UniqueTail(rows: seq<IngredientInRecipe>)
    requires rows != [] && UniqueIngredientRows(rows)
    ensures UniqueIngredientRows(rows[1..])
    ensures forall y :: y in rows[1..] ==> y.recipe != rows[0].recipe || y.ingredient != rows[0].ingredient
  {
    forall y | y in rows[1..]
      ensures y.recipe != rows[0].recipe || y.ingredient != rows[0].ingredient
    {
      var k :| 0 <= k < |rows[1..]| && rows[1..][k] == y;
      assert rows[k + 1] == y;
    }
  }

  /** Removing the rows of some recipes keeps the unique constraint. */
  lemma {:induction false} WithoutRecipesUnique(rows: seq<IngredientInRecipe>, gone: set<RecipeId>)
    requires UniqueIngredientRows(rows)
    ensures UniqueIngredientRows(WithoutRecipes(rows, gone))
  {
    if rows != [] {
      UniqueTail(rows);
      WithoutRecipesUnique(rows[1..], gone);
      if rows[0].recipe !in gone {
        UniqueCons(rows[0], WithoutRecipes(rows[1..], gone));
      }
    }
  }

  /**
   * The cascade removes exactly the rows of the deleted recipes: every other
   * recipe keeps the very same rows, in the same order.
   */
  lemma {:induction false} WithoutRecipesRowsOf(rows: seq<IngredientInRecipe>, gone: set<RecipeId>, id: RecipeId)
    ensures RowsOf(WithoutRecipes(rows, gone), id) == if id in gone then [] else RowsOf(rows, id)
  {
    if rows != [] {
      WithoutRecipesRowsOf(rows[1..], gone, id);
      if rows[0].recipe !in gone {
        assert ([rows[0]] + WithoutRecipes(rows[1..], gone))[1..] == WithoutRecipes(rows[1..], gone);
      }
    }
  }

  /** RowsOf distributes over concatenation. */
  lemma {:induction false} RowsOfAppend(a: seq<IngredientInRecipe>, b: seq<IngredientInRecipe>, id: RecipeId)
    ensures RowsOf(a + b, id) == RowsOf(a, id) + RowsOf(b, id)
  {
    if a != [] {
      assert (a + b)[1..] == a[1..] + b;
      RowsOfAppend(a[1..], b, id);
    } else {
      assert a + b == b;
    }
  }

  /** Deleting recipes keeps every constraint of the store. */
  lemma DeleteRecipesValid(db: Database, gone: set<RecipeId>)
    requires db.Valid()
    ensures db.DeleteRecipes(gone).Valid()
  {
    var d := db.DeleteRecipes(gone);
    WithoutRecipesUnique(db.recipeIngredients, gone);
    forall i | 0 <= i < |d.recipeIngredients|
      ensures d.recipeIngredients[i].amount >= 1 && d.recipeIngredients[i].recipe in d.recipes
              && d.recipeIngredients[i].ingredient in d.ingredients
    {
      assert d.recipeIngredients[i] in d.recipeIngredients;
      var k :| 0 <= k < |db.recipeIngredients| && db.recipeIngredients[k] == d.recipeIngredients[i];
    }
  }

  /**
   * What a recipe deletion removes: that recipe, its rows, favourites and cart
   * entries; the reference tables and every other recipe's rows are untouched.
   */
  lemma DeleteRecipeEffect(db: Database, id: RecipeId, other: RecipeId)
    requires other != id
    ensures var d := db.DeleteRecipes({id});
      && id !in d.recipes
      && RowsOf(d.recipeIngredients, id) == []
      && (forall p :: p in d.favorites <==> p in db.favorites && p.recipe != id)
      && (forall p :: p in d.shoppingCarts <==> p in db.shoppingCarts && p.recipe != id)
      && RowsOf(d.recipeIngredients, other) == RowsOf(db.recipeIngredients, other)
      && (other in db.recipes ==> other in d.recipes && d.recipes[other] == db.recipes[other])
      && d.users == db.users && d.ingredients == db.ingredients && d.tags == db.tags
      && d.subscriptions == db.subscriptions
  {
    WithoutRecipesRowsOf(db.recipeIngredients, {id}, id);
    WithoutRecipesRowsOf(db.recipeIngredients, {id}, other);
  }

  /** Whether a recipe row meets its validators and its foreign keys resolve. */
  predicate RecipeFits(r: Recipe, users: set<UserId>, tags: set<TagId>)
  {
    r.cookingTime >= 1 && r.author in users && r.tags <= tags
  }

  /** Inserting a recipe under the next auto-increment id keeps every constraint; no row yet points at it. */
  lemma InsertRecipeValid(db: Database, rec: Recipe)
    requires db.Valid()
    requires RecipeFits(rec, db.users, db.tags)
    ensures db.nextRecipeId !in db.recipes
    ensures forall x :: x in db.recipeIngredients ==> x.recipe != db.nextRecipeId
    ensures db.(recipes := db.recipes[db.nextRecipeId := rec], nextRecipeId := db.nextRecipeId + 1).Valid()
  {
    forall x | x in db.recipeIngredients ensures x.recipe != db.nextRecipeId {
      var k :| 0 <= k < |db.recipeIngredients| && db.recipeIngredients[k] == x;
    }
  }

  /** Overwriting an existing recipe with one that fits keeps every constraint. */
  lemma ReplaceRecipeValid(db: Database, id: RecipeId, rec: Recipe)
    requires db.Valid()
    requires id in db.recipes
    requires RecipeFits(rec, db.users, db.tags)
    ensures db.(recipes := db.recipes[id := rec]).Valid()
  {
  }

  /** Clearing one recipe's rows keeps every constraint and leaves no row pointing at it. */
  lemma ClearRowsValid(db: Database, id: RecipeId)
    requires db.Valid()
    ensures var d := db.(recipeIngredients := WithoutRecipes(db.recipeIngredients, {id}));
      d.Valid() && forall x :: x in d.recipeIngredients ==> x.recipe != id
  {
    var rows := WithoutRecipes(db.recipeIngredients, {id});
    WithoutRecipesUnique(db.recipeIngredients, {id});
    forall i | 0 <= i < |rows|
      ensures rows[i].amount >= 1 && rows[i].recipe in db.recipes && rows[i].ingredient in db.ingredients
    {
      assert rows[i] in db.recipeIngredients;
      var k :| 0 <= k < |db.recipeIngredients| && db.recipeIngredients[k] == rows[i];
    }
  }

  /** Deleting a user keeps every constraint of the store. */
  lemma DeleteUserValid(db: Database, u: UserId)
    requires db.Valid()
    ensures db.DeleteUser(u).Valid()
  {
    var authored := set id | id in db.recipes && db.recipes[id].author == u;
    DeleteRecipesValid(db, authored);
  }

  /**
   * What a user deletion removes: the user, the recipes they wrote with those
   * recipes' rows, every favourite or cart entry that is theirs or names one
   * of their recipes, and every subscription from or to them. Other users'
   * recipes keep their rows, and the reference tables are untouched.
   */
  lemma DeleteUserEffect(db: Database, u: UserId, id: RecipeId)
    ensures var d := db.DeleteUser(u);
      && d.users == db.users - {u}
      && (forall r :: r in d.recipes <==> r in db.recipes && db.recipes[r].author != u)
      && (forall r :: r in d.recipes ==> d.recipes[r] == db.recipes[r])
      && RowsOf(d.recipeIngredients, id) ==
           (if id in db.recipes && db.recipes[id].author == u then [] else RowsOf(db.recipeIngredients, id))
      && (forall p :: p in d.favorites <==>
            p in db.favorites && p.user != u && !(p.recipe in db.recipes && db.recipes[p.recipe].author == u))
      && (forall p :: p in d.shoppingCarts <==>
            p in db.shoppingCarts && p.user != u && !(p.recipe in db.recipes && db.recipes[p.recipe].author == u))
      && (forall f :: f in d.subscriptions <==> f in db.subscriptions && f.user != u && f.author != u)
      && d.ingredients == db.ingredients && d.tags == db.tags && d.nextRecipeId == db.nextRecipeId
  {
    var authored := set r | r in db.recipes && db.recipes[r].author == u;
    WithoutRecipesRowsOf(db.recipeIngredients, authored, id);
  }

  /** PROTECT: an ingredient that a recipe still uses cannot be deleted; otherwise only it goes. */
  lemma DeleteIngredientProtects(db: Database, id: IngredientId)
    requires db.Valid()
    ensures db.DeleteIngredient(id).Ok? <==> id in db.ingredients && forall r :: r in db.recipeIngredients ==> r.ingredient != id
    ensures db.DeleteIngredient(id).Ok? ==>
              db.DeleteIngredient(id).value.Valid() && db.DeleteIngredient(id).value == db.(ingredients := db.ingredients - {id})
  {
    if id in db.ingredients && !Referenced(db.recipeIngredients, id) {
      var d := db.(ingredients := db.ingredients - {id});
      forall i | 0 <= i < |d.recipeIngredients| ensures d.recipeIngredients[i].ingredient in d.ingredients {
        assert db.recipeIngredients[i].ingredient != id;
      }
    }
    if id in db.ingredients && Referenced(db.recipeIngredients, id) {
      var i :| 0 <= i < |db.recipeIngredients| && db.recipeIngredients[i].ingredient == id;
      assert db.recipeIngredients[i] in db.recipeIngredients;
    }
  }

  /** The store: one field per table, updated in place by the API's operations. */
  class Store {
    var users: set<UserId>
    var ingredients: map<IngredientId, Ingredient>
    var tags: set<TagId>
    var recipes: map<RecipeId, Recipe>
    var recipeIngredients: seq<IngredientInRecipe>
    var favorites: set<UserRecipe>
    var shoppingCarts: set<UserRecipe>
    var subscriptions: set<Subscription>
    var nextRecipeId: RecipeId

    function State(): Database
      reads this
    {
      Database(users, ingredients, tags, recipes, recipeIngredients,
               favorites, shoppingCarts, subscriptions, nextRecipeId)
    }

    ghost predicate Valid()
      reads this
    {
      State().Valid()
    }

    /** A store holding the reference data (users, ingredients, tags) and nothing else. */
    constructor (users: set<UserId>, ingredients: map<IngredientId, Ingredient>, tags: set<TagId>)
      ensures Valid()
      ensures State() == Database(users, ingredients, tags, map[], [], {}, {}, {}, 1)
    {
      this.users := users;
      this.ingredients := ingredients;
      this.tags := tags;
      recipes := map[];
      recipeIngredients := [];
      favorites := {};
      shoppingCarts := {};
      subscriptions := {};
      nextRecipeId := 1;
    }

    /** Writes a whole snapshot back; callers pass a snapshot they have proved valid. */
    method SetState(d: Database)
      requires d.Valid()
      modifies this
      ensures Valid()
      ensures State() == d
    {
      users, ingredients, tags, recipes := d.users, d.ingredients, d.tags, d.recipes;
      recipeIngredients, favorites, shoppingCarts := d.recipeIngredients, d.favorites, d.shoppingCarts;
      subscriptions, nextRecipeId := d.subscriptions, d.nextRecipeId;
    }

    /** Recipe deletion (404 when absent), with its cascades. */
    method DeleteRecipe(id: RecipeId) returns (r: Outcome)
      requires Valid()
      modifies this
      ensures Valid()
      ensures r == if id in old(recipes) then Pass else Fail(NotFound)
      ensures State() == if r.Pass? then old(State()).DeleteRecipes({id}) else old(State())
    {
      if id !in recipes {
        return Fail(NotFound);
      }
      DeleteRecipesValid(State(), {id});
      SetState(State().DeleteRecipes({id}));
      r := Pass;
    }

    /** User deletion (404 when absent), with its cascades. */
    method DeleteUser(u: UserId) returns (r: Outcome)
      requires Valid()
      modifies this
      ensures Valid()
      ensures r == if u in old(users) then Pass else Fail(NotFound)
      ensures State() == if r.Pass? then old(State()).DeleteUser(u) else old(State())
    {
      if u !in users {
        return Fail(NotFound);
      }
      DeleteUserValid(State(), u);
      SetState(State().DeleteUser(u));
      r := Pass;
    }

    /** Ingredient deletion, refused while a recipe uses the ingredient. */
    method DeleteIngredient(id: IngredientId) returns (r: Outcome)
      requires Valid()
      modifies this
      ensures Valid()
      ensures r.Pass? <==> old(State()).DeleteIngredient(id).Ok?
      ensures r.Fail? ==> r.error == old(State()).DeleteIngredient(id).error && State() == old(State())
      ensures r.Pass? ==> State() == old(State()).DeleteIngredient(id).value
    {
      DeleteIngredientProtects(State(), id);
      var d := State().DeleteIngredient(id);
      if d.Err? {
        return Fail(d.error);
      }
      SetState(d.value);
      r := Pass;
    }
  }
}
