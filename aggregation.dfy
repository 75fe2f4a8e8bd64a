/**
 * The shopping-cart query of `download_shopping_cart`: the ingredient rows of
 * the recipes in a user's cart, joined with their ingredient, grouped by
 * (ingredient name, measurement unit), with `amount` summed per group.
 *
 * The group-by is written as a left fold over the rows: each counted row
 * either adds its amount to the group of its key or opens a new group at the
 * end. The order of the groups is not part of what is proved.
 */
module Aggregation {
  import opened Models

  /** A grouping key: the ingredient's name and measurement unit. */
  datatype Key = Key(name: string, unit: string)

  /** One row of the query's result. */
  datatype Group = Group(name: string, unit: string, amount: int)

  function KeyOf(g: Group): Key
  {
    Key(g.name, g.unit)
  }

  function RowKey(row: IngredientInRecipe, ingredients: map<IngredientId, Ingredient>): Key
    requires row.ingredient in ingredients
  {
    Key(ingredients[row.ingredient].name, ingredients[row.ingredient].measurementUnit)
  }

  /** A row takes part in the query when its recipe is in the cart and its ingredient joins. */
  predicate Counted(row: IngredientInRecipe, ingredients: map<IngredientId, Ingredient>, cart: set<RecipeId>)
  {
    row.recipe in cart && row.ingredient in ingredients
  }

  predicate Contributes(row: IngredientInRecipe, ingredients: map<IngredientId, Ingredient>,
                        cart: set<RecipeId>, k: Key)
  {
    Counted(row, ingredients, cart) && RowKey(row, ingredients) == k
  }

  /** Sum('amount') over the rows counted in the group of `k`: the reference fold. */
  function RowSum(rows: seq<IngredientInRecipe>, ingredients: map<IngredientId, Ingredient>,
                  cart: set<RecipeId>, k: Key): int
  {
    if rows == [] then 0
    else
      var last := rows[|rows| - 1];
      RowSum(rows[..|rows| - 1], ingredients, cart, k) + (if Contributes(last, ingredients, cart, k) then last.amount else 0)
  }

  /** The position of the group of `k`, or -1. */
  function FindKey(groups: seq<Group>, k: Key): (i: int)
    ensures -1 <= i < |groups|
    ensures i >= 0 ==> KeyOf(groups[i]) == k
    ensures i == -1 ==> forall j :: 0 <= j < |groups| ==> KeyOf(groups[j]) != k
  {
    if groups == [] then -1
    else if KeyOf(groups[|groups| - 1]) == k then |groups| - 1
    else FindKey(groups[..|groups| - 1], k)
  }

  /** Add `amount` to the group of `k`, opening that group at the end if there is none. */
  function AddTo(groups: seq<Group>, k: Key, amount: int): seq<Group>
  {
    var i := FindKey(groups, k);
    if i >= 0 then groups[i := groups[i].(amount := groups[i].amount + amount)]
    else groups + [Group(k.name, k.unit, amount)]
  }

  /** The query's result for the rows, the ingredient table and the cart's recipes. */
  function Aggregate(rows: seq<IngredientInRecipe>, ingredients: map<IngredientId, Ingredient>,
                     cart: set<RecipeId>): seq<Group>
  {
    if rows == [] then []
    else
      var prev := Aggregate(rows[..|rows| - 1], ingredients, cart);
      var last := rows[|rows| - 1];
      if Counted(last, ingredients, cart) then AddTo(prev, RowKey(last, ingredients), last.amount) else prev
  }

  predicate DistinctKeys(groups: seq<Group>)
  {
    forall i, j :: 0 <= i < j < |groups| ==> KeyOf(groups[i]) != KeyOf(groups[j])
  }

  /** Each group's amount is the sum over the rows counted in it. */
  predicate Totals(groups: seq<Group>, rows: seq<IngredientInRecipe>, ingredients: map<IngredientId, Ingredient>,
                   cart: set<RecipeId>)
  {
    forall i :: 0 <= i < |groups| ==> groups[i].amount == RowSum(rows, ingredients, cart, KeyOf(groups[i]))
  }

  /** Each group comes from at least one counted row. */
  predicate Witnessed(groups: seq<Group>, rows: seq<IngredientInRecipe>, ingredients: map<IngredientId, Ingredient>,
                      cart: set<RecipeId>)
  {
    forall i :: 0 <= i < |groups| ==>
      exists j :: 0 <= j < |rows| && Contributes(rows[j], ingredients, cart, KeyOf(groups[i]))
  }

  /** Each counted row has a group. */
  predicate Covers(groups: seq<Group>, rows: seq<IngredientInRecipe>, ingredients: map<IngredientId, Ingredient>,
                   cart: set<RecipeId>)
  {
    forall j :: 0 <= j < |rows| && Counted(rows[j], ingredients, cart) ==>
      exists i :: 0 <= i < |groups| && KeyOf(groups[i]) == RowKey(rows[j], ingredients)
  }

  /** A key that no counted row has sums to zero. */
  lemma {:induction false} RowSumAbsent(rows: seq<IngredientInRecipe>, ingredients: map<IngredientId, Ingredient>,
                                        cart: set<RecipeId>, k: Key)
    requires forall j :: 0 <= j < |rows| ==> !Contributes(rows[j], ingredients, cart, k)
    ensures RowSum(rows, ingredients, cart, k) == 0
  {
    if rows != [] {
      var init := rows[..|rows| - 1];
      forall j | 0 <= j < |init| ensures !Contributes(init[j], ingredients, cart, k) {
        assert init[j] == rows[j];
      }
      RowSumAbsent(init, ingredients, cart, k);
    }
  }

  /** What adding to a key-distinct group list does: it keeps every key and opens at most one group, for `k`. */
  lemma AddToEffect(groups: seq<Group>, k: Key, amount: int)
    requires DistinctKeys(groups)
    ensures var r := AddTo(groups, k, amount);
      && DistinctKeys(r)
      && (|r| == |groups| || (|r| == |groups| + 1 && r[|groups|] == Group(k.name, k.unit, amount)
                               && forall i :: 0 <= i < |groups| ==> KeyOf(groups[i]) != k))
      && (forall i :: 0 <= i < |groups| ==> KeyOf(r[i]) == KeyOf(groups[i]))
      && (forall i :: 0 <= i < |groups| ==> r[i].amount == groups[i].amount + (if KeyOf(groups[i]) == k then amount else 0))
      && (exists i :: 0 <= i < |r| && KeyOf(r[i]) == k)
  {
    var n := FindKey(groups, k);
    if n >= 0 {
      assert KeyOf(AddTo(groups, k, amount)[n]) == k;
    } else {
      var r := AddTo(groups, k, amount);
      assert KeyOf(r[|groups|]) == k;
    }
  }

  /** No key appears in two groups. */
  lemma {:induction false} AggregateDistinct(rows: seq<IngredientInRecipe>, ingredients: map<IngredientId, Ingredient>,
                                             cart: set<RecipeId>)
    ensures DistinctKeys(Aggregate(rows, ingredients, cart))
  {
    if rows != [] {
      var init := rows[..|rows| - 1];
      var last := rows[|rows| - 1];
      AggregateDistinct(init, ingredients, cart);
      if Counted(last, ingredients, cart) {
        AddToEffect(Aggregate(init, ingredients, cart), RowKey(last, ingredients), last.amount);
      }
    }
  }

  /** Every counted row has a group. */
  lemma {:induction false} AggregateCovers(rows: seq<IngredientInRecipe>, ingredients: map<IngredientId, Ingredient>,
                                           cart: set<RecipeId>)
    ensures Covers(Aggregate(rows, ingredients, cart), rows, ingredients, cart)
  {
    if rows != [] {
      var init := rows[..|rows| - 1];
      var last := rows[|rows| - 1];
      AggregateCovers(init, ingredients, cart);
      AggregateDistinct(init, ingredients, cart);
      var prev := Aggregate(init, ingredients, cart);
      var g := Aggregate(rows, ingredients, cart);
      if Counted(last, ingredients, cart) {
        AddToEffect(prev, RowKey(last, ingredients), last.amount);
      }
      forall j | 0 <= j < |init| && Counted(rows[j], ingredients, cart)
        ensures exists i :: 0 <= i < |g| && KeyOf(g[i]) == RowKey(rows[j], ingredients)
      {
        assert rows[j] == init[j];
        var i :| 0 <= i < |prev| && KeyOf(prev[i]) == RowKey(init[j], ingredients);
        assert KeyOf(g[i]) == KeyOf(prev[i]);
      }
    }
  }

  /** Every group comes from a counted row. */
  lemma {:induction false} AggregateWitnessed(rows: seq<IngredientInRecipe>, ingredients: map<IngredientId, Ingredient>,
                                              cart: set<RecipeId>)
    ensures Witnessed(Aggregate(rows, ingredients, cart), rows, ingredients, cart)
  {
    if rows != [] {
      var init := rows[..|rows| - 1];
      var last := rows[|rows| - 1];
      AggregateWitnessed(init, ingredients, cart);
      AggregateDistinct(init, ingredients, cart);
      var prev := Aggregate(init, ingredients, cart);
      var g := Aggregate(rows, ingredients, cart);
      if Counted(last, ingredients, cart) {
        AddToEffect(prev, RowKey(last, ingredients), last.amount);
      }
      forall i | 0 <= i < |g|
        ensures exists j :: 0 <= j < |rows| && Contributes(rows[j], ingredients, cart, KeyOf(g[i]))
      {
        if i < |prev| {
          var j :| 0 <= j < |init| && Contributes(init[j], ingredients, cart, KeyOf(prev[i]));
          assert rows[j] == init[j];
        } else {
          assert Contributes(rows[|rows| - 1], ingredients, cart, KeyOf(g[i]));
        }
      }
    }
  }

  /** Each group's amount is the sum of `amount` over the counted rows with its key. */
  lemma {:induction false} AggregateTotals(rows: seq<IngredientInRecipe>, ingredients: map<IngredientId, Ingredient>,
                                           cart: set<RecipeId>)
    ensures Totals(Aggregate(rows, ingredients, cart), rows, ingredients, cart)
  {
    if rows != [] {
      var init := rows[..|rows| - 1];
      var last := rows[|rows| - 1];
      AggregateTotals(init, ingredients, cart);
      var prev := Aggregate(init, ingredients, cart);
      var g := Aggregate(rows, ingredients, cart);
      if !Counted(last, ingredients, cart) {
        forall i | 0 <= i < |g| ensures g[i].amount == RowSum(rows, ingredients, cart, KeyOf(g[i])) {
          assert !Contributes(last, ingredients, cart, KeyOf(g[i]));
        }
      } else {
        var k := RowKey(last, ingredients);
        AggregateDistinct(init, ingredients, cart);
        AddToEffect(prev, k, last.amount);
        forall i | 0 <= i < |g| ensures g[i].amount == RowSum(rows, ingredients, cart, KeyOf(g[i])) {
          if i == |prev| {
            AggregateCovers(init, ingredients, cart);
            forall j | 0 <= j < |init| ensures !Contributes(init[j], ingredients, cart, k) {
              if Contributes(init[j], ingredients, cart, k) {
                assert false;
              }
            }
            RowSumAbsent(init, ingredients, cart, k);
          }
        }
      }
    }
  }

  /**
   * The query is a group-by sum: one group per (name, unit) key that some
   * counted row has, no key twice, and each group's amount equal to the sum of
   * the amounts of the counted rows with that key. Rows of recipes outside the
   * cart are counted nowhere.
   */
  lemma AggregateCorrect(rows: seq<IngredientInRecipe>, ingredients: map<IngredientId, Ingredient>,
                         cart: set<RecipeId>)
    ensures var g := Aggregate(rows, ingredients, cart);
      && DistinctKeys(g)
      && Totals(g, rows, ingredients, cart)
      && Witnessed(g, rows, ingredients, cart)
      && Covers(g, rows, ingredients, cart)
  {
    AggregateDistinct(rows, ingredients, cart);
    AggregateTotals(rows, ingredients, cart);
    AggregateWitnessed(rows, ingredients, cart);
    AggregateCovers(rows, ingredients, cart);
  }

  /** An empty cart aggregates to no groups at all. */
  lemma {:induction false} EmptyCartAggregate(rows: seq<IngredientInRecipe>, ingredients: map<IngredientId, Ingredient>)
    ensures Aggregate(rows, ingredients, {}) == []
  {
    if rows != [] {
      EmptyCartAggregate(rows[..|rows| - 1], ingredients);
    }
  }

  /** Two cart recipes needing 200 g and 100 g of flour give one flour group of 300 g; a recipe outside the cart adds nothing. */
  lemma FlourExample()
    ensures Aggregate([IngredientInRecipe(1, 7, 200), IngredientInRecipe(3, 7, 50), IngredientInRecipe(2, 7, 100)],
                      map[7 := Ingredient("flour", "g")], {1, 2})
         == [Group("flour", "g", 300)]
  {
    var ingredients := map[7 := Ingredient("flour", "g")];
    var cart := {1, 2};
    var flour := Key("flour", "g");
    var r1 := [IngredientInRecipe(1, 7, 200)];
    var r2 := r1 + [IngredientInRecipe(3, 7, 50)];
    var r3 := r2 + [IngredientInRecipe(2, 7, 100)];
    assert r1[..0] == [];
    assert RowKey(r1[0], ingredients) == flour;
    assert FindKey([], flour) == -1;
    assert Aggregate(r1, ingredients, cart) == [Group("flour", "g", 200)];
    assert r2[..1] == r1;
    assert !Counted(r2[1], ingredients, cart);
    assert Aggregate(r2, ingredients, cart) == [Group("flour", "g", 200)];
    assert r3[..2] == r2;
    assert FindKey([Group("flour", "g", 200)], flour) == 0;
    assert Aggregate(r3, ingredients, cart) == [Group("flour", "g", 300)];
  }
}
