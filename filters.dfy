/**
 * `RecipesFilter.favorite` and `RecipesFilter.shopping_cart`: the
 * `is_favorited` and `is_in_shopping_cart` query flags of the recipe list.
 * A queryset is the sequence of recipe ids in list order.
 */
module Filters {
  import opened Models

  /** The recipes of `queryset` that are in `allowed`, in their original order. */
  function Keep(queryset: seq<RecipeId>, allowed: set<RecipeId>): (r: seq<RecipeId>)
    ensures forall x :: x in r <==> x in queryset && x in allowed
    ensures |r| <= |queryset|
    ensures multiset(r) <= multiset(queryset)
  {
    if queryset == [] then []
    else
      var rest := Keep(queryset[1..], allowed);
      assert queryset == [queryset[0]] + queryset[1..];
      if queryset[0] in allowed then [queryset[0]] + rest else rest
  }

  /** Filtering a concatenation filters each part and keeps them in order. */
  lemma {:induction false} KeepAppend(a: seq<RecipeId>, b: seq<RecipeId>, allowed: set<RecipeId>)
    ensures Keep(a + b, allowed) == Keep(a, allowed) + Keep(b, allowed)
  {
    if a == [] {
      assert a + b == b;
    } else {
      assert (a + b)[1..] == a[1..] + b;
      KeepAppend(a[1..], b, allowed);
    }
  }

  /** A queryset whose recipes are all allowed is left as it is. */
  lemma {:induction false} KeepAll(queryset: seq<RecipeId>, allowed: set<RecipeId>)
    requires forall i :: 0 <= i < |queryset| ==> queryset[i] in allowed
    ensures Keep(queryset, allowed) == queryset
  {
    if queryset != [] {
      var tail := queryset[1..];
      assert forall i :: 0 <= i < |tail| ==> tail[i] == queryset[i + 1];
      KeepAll(tail, allowed);
      assert queryset == [queryset[0]] + tail;
    }
  }

  /** `is_favorited`: with the flag set, only the user's favourite recipes remain. */
  function Favorite(queryset: seq<RecipeId>, user: UserId, value: bool, favorites: set<UserRecipe>): (r: seq<RecipeId>)
    ensures !value ==> r == queryset
    ensures value ==> forall x :: x in r <==> x in queryset && UserRecipe(user, x) in favorites
    ensures multiset(r) <= multiset(queryset)
  {
    if value then Keep(queryset, RecipesOf(favorites, user)) else queryset
  }

  /** `is_in_shopping_cart`: with the flag set, only the recipes in the user's cart remain. */
  function ShoppingCart(queryset: seq<RecipeId>, user: UserId, value: bool, shoppingCarts: set<UserRecipe>): (r: seq<RecipeId>)
    ensures !value ==> r == queryset
    ensures value ==> forall x :: x in r <==> x in queryset && UserRecipe(user, x) in shoppingCarts
    ensures multiset(r) <= multiset(queryset)
  {
    if value then Keep(queryset, RecipesOf(shoppingCarts, user)) else queryset
  }

  /** Filtering twice by the same flag changes nothing more. */
  lemma FavoriteIdempotent(queryset: seq<RecipeId>, user: UserId, value: bool, favorites: set<UserRecipe>)
    ensures Favorite(Favorite(queryset, user, value, favorites), user, value, favorites) == Favorite(queryset, user, value, favorites)
  {
    if value {
      var once := Favorite(queryset, user, value, favorites);
      assert forall i :: 0 <= i < |once| ==> once[i] in once;
      KeepAll(once, RecipesOf(favorites, user));
    }
  }

  /** The two flags commute: favourites in the cart are the cart's favourites. */
  lemma {:induction false} FiltersCommute(queryset: seq<RecipeId>, user: UserId, favorited: bool, inCart: bool,
                                          favorites: set<UserRecipe>, shoppingCarts: set<UserRecipe>)
    ensures ShoppingCart(Favorite(queryset, user, favorited, favorites), user, inCart, shoppingCarts)
         == Favorite(ShoppingCart(queryset, user, inCart, shoppingCarts), user, favorited, favorites)
  {
    if favorited && inCart {
      KeepCommute(queryset, RecipesOf(favorites, user), RecipesOf(shoppingCarts, user));
    }
  }

  lemma {:induction false} KeepCommute(queryset: seq<RecipeId>, a: set<RecipeId>, b: set<RecipeId>)
    ensures Keep(Keep(queryset, a), b) == Keep(Keep(queryset, b), a)
  {
    if queryset != [] {
      KeepCommute(queryset[1..], a, b);
    }
  }
}
