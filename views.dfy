/**
 * The API actions of RecipesViewSet and UserSubscribeViewSet that change or
 * read the store: creating a recipe, adding and removing favourites, cart
 * entries and subscriptions, and downloading the shopping list.
 *
 * Each relation action is specified by a pure step on a `Database` snapshot
 * (the outcome and the next snapshot); the action itself updates the store in
 * place and is proved to take exactly that step.
 */
module Views {
  import opened Results
  import opened Models
  import opened Serializers
  import opened Aggregation
  import opened Utils

  /** What an action answers and the store it leaves behind. */
  datatype Step = Step(outcome: Outcome, db: Database)

  // ---------------------------------------------------------------------
  // Favourites

  /**
   * POST favorite: the `recipe` field must name a recipe, then the
   * serializer refuses an existing pair; otherwise exactly that pair is added.
   */
  function AddFavorite(db: Database, user: UserId, recipe: RecipeId): (r: Step)
    ensures r.outcome.Pass? <==> recipe in db.recipes && UserRecipe(user, recipe) !in db.favorites
    ensures recipe !in db.recipes ==> r.outcome == Fail(InvalidRecipe(recipe))
    ensures recipe in db.recipes && UserRecipe(user, recipe) in db.favorites ==> r.outcome == Fail(AlreadyFavorited)
    ensures r.outcome.Fail? ==> r.db == db
    ensures r.outcome.Pass? ==> r.db.favorites == db.favorites + {UserRecipe(user, recipe)} && r.db == db.(favorites := r.db.favorites)
  {
    if recipe !in db.recipes then Step(Fail(InvalidRecipe(recipe)), db)
    else match FavoriteValidate(db.favorites, user, recipe)
      case Fail(e) => Step(Fail(e), db)
      case Pass => Step(Pass, db.(favorites := db.favorites + {UserRecipe(user, recipe)}))
  }

  /** DELETE favorite: 404 when the recipe or the pair is missing; otherwise only that pair goes. */
  function RemoveFavorite(db: Database, user: UserId, recipe: RecipeId): (r: Step)
    ensures r.outcome.Pass? <==> recipe in db.recipes && UserRecipe(user, recipe) in db.favorites
    ensures r.outcome.Fail? ==> r.outcome.error == NotFound && r.db == db
    ensures r.outcome.Pass? ==> r.db.favorites == db.favorites - {UserRecipe(user, recipe)} && r.db == db.(favorites := r.db.favorites)
  {
    if recipe !in db.recipes || UserRecipe(user, recipe) !in db.favorites then Step(Fail(NotFound), db)
    else Step(Pass, db.(favorites := db.favorites - {UserRecipe(user, recipe)}))
  }

  /** Adding a favourite keeps the store valid. */
  lemma AddFavoriteValid(db: Database, user: UserId, recipe: RecipeId)
    requires db.Valid() && user in db.users
    ensures AddFavorite(db, user, recipe).db.Valid()
  {
  }

  /** Removing a favourite keeps the store valid. */
  lemma RemoveFavoriteValid(db: Database, user: UserId, recipe: RecipeId)
    requires db.Valid()
    ensures RemoveFavorite(db, user, recipe).db.Valid()
  {
  }

  /** Removing a favourite that was just added gives back the store as it was. */
  lemma FavoriteRoundTrip(db: Database, user: UserId, recipe: RecipeId)
    requires AddFavorite(db, user, recipe).outcome.Pass?
    ensures RemoveFavorite(AddFavorite(db, user, recipe).db, user, recipe) == Step(Pass, db)
  {
  }

  /** Adding the same favourite twice fails the second time, leaving the store as the first left it. */
  lemma FavoriteTwice(db: Database, user: UserId, recipe: RecipeId)
    requires AddFavorite(db, user, recipe).outcome.Pass?
    ensures var once := AddFavorite(db, user, recipe).db;
      AddFavorite(once, user, recipe) == Step(Fail(AlreadyFavorited), once)
  {
  }

  method Favorite(s: Store, user: UserId, recipe: RecipeId) returns (r: Outcome)
    requires s.Valid() && user in s.users
    modifies s
    ensures s.Valid()
    ensures Step(r, s.State()) == AddFavorite(old(s.State()), user, recipe)
  {
    AddFavoriteValid(s.State(), user, recipe);
    if recipe !in s.recipes {
      return Fail(InvalidRecipe(recipe));
    }
    r := FavoriteValidate(s.favorites, user, recipe);
    if r.Pass? {
      s.favorites := s.favorites + {UserRecipe(user, recipe)};
    }
  }

  method DeleteFavorite(s: Store, user: UserId, recipe: RecipeId) returns (r: Outcome)
    requires s.Valid()
    modifies s
    ensures s.Valid()
    ensures Step(r, s.State()) == RemoveFavorite(old(s.State()), user, recipe)
  {
    RemoveFavoriteValid(s.State(), user, recipe);
    if recipe !in s.recipes {
      return Fail(NotFound);
    }
    var favorite := UserRecipe(user, recipe);
    if favorite !in s.favorites {
      return Fail(NotFound);
    }
    s.favorites := s.favorites - {favorite};
    r := Pass;
  }

  // ---------------------------------------------------------------------
  // Shopping cart

  /** POST shopping_cart: as for favourites, against the cart table. */
  function AddToCart(db: Database, user: UserId, recipe: RecipeId): (r: Step)
    ensures r.outcome.Pass? <==> recipe in db.recipes && UserRecipe(user, recipe) !in db.shoppingCarts
    ensures recipe !in db.recipes ==> r.outcome == Fail(InvalidRecipe(recipe))
    ensures recipe in db.recipes && UserRecipe(user, recipe) in db.shoppingCarts ==> r.outcome == Fail(AlreadyInCart)
    ensures r.outcome.Fail? ==> r.db == db
    ensures r.outcome.Pass? ==>
      r.db.shoppingCarts == db.shoppingCarts + {UserRecipe(user, recipe)} && r.db == db.(shoppingCarts := r.db.shoppingCarts)
  {
    if recipe !in db.recipes then Step(Fail(InvalidRecipe(recipe)), db)
    else match ShoppingCartValidate(db.shoppingCarts, user, recipe)
      case Fail(e) => Step(Fail(e), db)
      case Pass => Step(Pass, db.(shoppingCarts := db.shoppingCarts + {UserRecipe(user, recipe)}))
  }

  /** DELETE shopping_cart: 404 when the recipe or the pair is missing; otherwise only that pair goes. */
  function RemoveFromCart(db: Database, user: UserId, recipe: RecipeId): (r: Step)
    ensures r.outcome.Pass? <==> recipe in db.recipes && UserRecipe(user, recipe) in db.shoppingCarts
    ensures r.outcome.Fail? ==> r.outcome.error == NotFound && r.db == db
    ensures r.outcome.Pass? ==>
      r.db.shoppingCarts == db.shoppingCarts - {UserRecipe(user, recipe)} && r.db == db.(shoppingCarts := r.db.shoppingCarts)
  {
    if recipe !in db.recipes || UserRecipe(user, recipe) !in db.shoppingCarts then Step(Fail(NotFound), db)
    else Step(Pass, db.(shoppingCarts := db.shoppingCarts - {UserRecipe(user, recipe)}))
  }

  lemma AddToCartValid(db: Database, user: UserId, recipe: RecipeId)
    requires db.Valid() && user in db.users
    ensures AddToCart(db, user, recipe).db.Valid()
  {
  }

  lemma RemoveFromCartValid(db: Database, user: UserId, recipe: RecipeId)
    requires db.Valid()
    ensures RemoveFromCart(db, user, recipe).db.Valid()
  {
  }

  /** Removing a cart entry that was just added gives back the store as it was. */
  lemma CartRoundTrip(db: Database, user: UserId, recipe: RecipeId)
    requires AddToCart(db, user, recipe).outcome.Pass?
    ensures RemoveFromCart(AddToCart(db, user, recipe).db, user, recipe) == Step(Pass, db)
  {
  }

  method ShoppingCart(s: Store, user: UserId, recipe: RecipeId) returns (r: Outcome)
    requires s.Valid() && user in s.users
    modifies s
    ensures s.Valid()
    ensures Step(r, s.State()) == AddToCart(old(s.State()), user, recipe)
  {
    AddToCartValid(s.State(), user, recipe);
    if recipe !in s.recipes {
      return Fail(InvalidRecipe(recipe));
    }
    r := ShoppingCartValidate(s.shoppingCarts, user, recipe);
    if r.Pass? {
      s.shoppingCarts := s.shoppingCarts + {UserRecipe(user, recipe)};
    }
  }

  method DeleteShoppingCart(s: Store, user: UserId, recipe: RecipeId) returns (r: Outcome)
    requires s.Valid()
    modifies s
    ensures s.Valid()
    ensures Step(r, s.State()) == RemoveFromCart(old(s.State()), user, recipe)
  {
    RemoveFromCartValid(s.State(), user, recipe);
    if recipe !in s.recipes {
      return Fail(NotFound);
    }
    var shoppingList := UserRecipe(user, recipe);
    if shoppingList !in s.shoppingCarts {
      return Fail(NotFound);
    }
    s.shoppingCarts := s.shoppingCarts - {shoppingList};
    r := Pass;
  }

  // ---------------------------------------------------------------------
  // Subscriptions

  /**
   * POST subscribe: 404 for an unknown author, then a plain insert. The
   * serializer's checks are not run on this path, so only the unique
   * constraint refuses a repeated pair and nothing refuses user == author.
   */
  function AddSubscription(db: Database, user: UserId, author: UserId): (r: Step)
    ensures r.outcome.Pass? <==> author in db.users && Subscription(user, author) !in db.subscriptions
    ensures author !in db.users ==> r.outcome == Fail(NotFound)
    ensures author in db.users && Subscription(user, author) in db.subscriptions ==> r.outcome == Fail(UniqueViolation)
    ensures r.outcome.Fail? ==> r.db == db
    ensures r.outcome.Pass? ==>
      r.db.subscriptions == db.subscriptions + {Subscription(user, author)} && r.db == db.(subscriptions := r.db.subscriptions)
  {
    if author !in db.users then Step(Fail(NotFound), db)
    else if Subscription(user, author) in db.subscriptions then Step(Fail(UniqueViolation), db)
    else Step(Pass, db.(subscriptions := db.subscriptions + {Subscription(user, author)}))
  }

  /** DELETE subscribe: 404 for an unknown author; otherwise the pair is gone, whether or not it was there. */
  function RemoveSubscription(db: Database, user: UserId, author: UserId): (r: Step)
    ensures r.outcome.Pass? <==> author in db.users
    ensures r.outcome.Fail? ==> r.outcome.error == NotFound && r.db == db
    ensures r.outcome.Pass? ==>
      r.db.subscriptions == db.subscriptions - {Subscription(user, author)} && r.db == db.(subscriptions := r.db.subscriptions)
  {
    if author !in db.users then Step(Fail(NotFound), db)
    else if Subscription(user, author) in db.subscriptions then
      Step(Pass, db.(subscriptions := db.subscriptions - {Subscription(user, author)}))
    else Step(Pass, db)
  }

  lemma AddSubscriptionValid(db: Database, user: UserId, author: UserId)
    requires db.Valid() && user in db.users
    ensures AddSubscription(db, user, author).db.Valid()
  {
  }

  lemma RemoveSubscriptionValid(db: Database, user: UserId, author: UserId)
    requires db.Valid()
    ensures RemoveSubscription(db, user, author).db.Valid()
  {
  }

  /**
   * The subscribe action accepts following oneself, which the subscription
   * serializer's own check refuses: that check is bypassed.
   */
  lemma SelfSubscriptionAccepted(db: Database, user: UserId)
    requires user in db.users && Subscription(user, user) !in db.subscriptions
    ensures AddSubscription(db, user, user).outcome == Pass
    ensures Subscription(user, user) in AddSubscription(db, user, user).db.subscriptions
    ensures SubscriptionValidate(db.subscriptions, user, user) == Fail(SelfSubscription)
  {
  }

  /** Unsubscribing right after subscribing gives back the store as it was. */
  lemma SubscriptionRoundTrip(db: Database, user: UserId, author: UserId)
    requires AddSubscription(db, user, author).outcome.Pass?
    ensures RemoveSubscription(AddSubscription(db, user, author).db, user, author) == Step(Pass, db)
  {
  }

  /** Unsubscribing twice answers the same and changes nothing the second time. */
  lemma RemoveSubscriptionIdempotent(db: Database, user: UserId, author: UserId)
    ensures var once := RemoveSubscription(db, user, author);
      RemoveSubscription(once.db, user, author) == Step(once.outcome, once.db)
  {
  }

  method Subscribe(s: Store, user: UserId, author: UserId) returns (r: Outcome)
    requires s.Valid() && user in s.users
    modifies s
    ensures s.Valid()
    ensures Step(r, s.State()) == AddSubscription(old(s.State()), user, author)
  {
    AddSubscriptionValid(s.State(), user, author);
    if author !in s.users {
      return Fail(NotFound);
    }
    var subscribe := Subscription(user, author);
    if subscribe in s.subscriptions {
      return Fail(UniqueViolation);
    }
    s.subscriptions := s.subscriptions + {subscribe};
    r := Pass;
  }

  method DeleteSubscribe(s: Store, user: UserId, author: UserId) returns (r: Outcome)
    requires s.Valid()
    modifies s
    ensures s.Valid()
    ensures Step(r, s.State()) == RemoveSubscription(old(s.State()), user, author)
  {
    RemoveSubscriptionValid(s.State(), user, author);
    if author !in s.users {
      return Fail(NotFound);
    }
    var subscribed := Subscription(user, author);
    if subscribed in s.subscriptions {
      s.subscriptions := s.subscriptions - {subscribed};
    }
    r := Pass;
  }

  // ---------------------------------------------------------------------
  // Creating a recipe

  /**
   * perform_create: `is_valid` (field validation of `tags`, `name`, `text`
   * and `cooking_time`, then `validate` on the trimmed data), then `create` with the
   * requesting user as author. Nothing changes on error.
   */
  method PerformCreate(s: Store, user: UserId, data: RecipeInput) returns (r: Result<RecipeId>)
    requires s.Valid() && user in s.users
    modifies s
    ensures s.Valid()
    ensures r.Ok? <==> IsValid(data, old(s.tags), old(s.ingredients.Keys)).Pass?
    ensures r.Err? ==> IsValid(data, old(s.tags), old(s.ingredients.Keys)) == Fail(r.error) && s.State() == old(s.State())
    ensures r.Ok? ==> r.value == old(s.nextRecipeId) && r.value !in old(s.recipes)
    ensures r.Ok? ==> s.State() == old(s.State()).(
              recipes := old(s.recipes)[r.value := Recipe(Trim(data.name), user, Trim(data.text), data.cookingTime.value, set t | t in data.tags)],
              recipeIngredients := old(s.recipeIngredients) + RowsFor(r.value, data.ingredients),
              nextRecipeId := r.value + 1)
    ensures r.Ok? ==> RowsOf(s.recipeIngredients, r.value) == RowsFor(r.value, data.ingredients)
  {
    var unknown := FirstUnknownTag(data.tags, s.tags);
    if unknown.Some? {
      return Err(UnknownTag(unknown.value));
    }
    var fields := CheckText(data);
    if fields.Fail? {
      return Err(fields.error);
    }
    var cookingTime := CheckCookingTime(data);
    if cookingTime.Fail? {
      return Err(cookingTime.error);
    }
    var validated := ValidateRecipe(s, Cleaned(data));
    if validated.Err? {
      return Err(validated.error);
    }
    var id := Create(s, validated.value, user);
    r := Ok(id);
  }

  // ---------------------------------------------------------------------
  // Downloading the shopping list

  /** The query of download_shopping_cart: the groups of the user's cart. */
  function CartGroups(db: Database, user: UserId): seq<Group>
  {
    Aggregate(db.recipeIngredients, db.ingredients, RecipesOf(db.shoppingCarts, user))
  }

  /** The groups of the user's cart: one per key, each the sum of the cart's rows with that key. */
  lemma CartGroupsCorrect(db: Database, user: UserId)
    ensures var g := CartGroups(db, user);
      var cart := RecipesOf(db.shoppingCarts, user);
      && DistinctKeys(g)
      && Totals(g, db.recipeIngredients, db.ingredients, cart)
      && Witnessed(g, db.recipeIngredients, db.ingredients, cart)
      && Covers(g, db.recipeIngredients, db.ingredients, cart)
  {
    AggregateCorrect(db.recipeIngredients, db.ingredients, RecipesOf(db.shoppingCarts, user));
  }

  /** A user with an empty cart has no groups. */
  lemma EmptyCartGroups(db: Database, user: UserId)
    requires forall p :: p in db.shoppingCarts ==> p.user != user
    ensures CartGroups(db, user) == []
  {
    assert RecipesOf(db.shoppingCarts, user) == {};
    EmptyCartAggregate(db.recipeIngredients, db.ingredients);
  }

  /** download_shopping_cart: the aggregated cart, written out as the numbered list. */
  method DownloadShoppingCart(s: Store, user: UserId) returns (shoppingCart: seq<string>)
    ensures IsShoppingList(shoppingCart, CartGroups(s.State(), user))
    ensures (forall p :: p in s.shoppingCarts ==> p.user != user) ==> shoppingCart == [Header]
  {
    var ingredients := Aggregate(s.recipeIngredients, s.ingredients, RecipesOf(s.shoppingCarts, user));
    if forall p :: p in s.shoppingCarts ==> p.user != user {
      EmptyCartGroups(s.State(), user);
    }
    shoppingCart := CreateListShoppingCart(ingredients);
  }
}
