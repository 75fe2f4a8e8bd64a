/**
 * Outcomes of the recipe backend's operations: the validation errors raised by
 * the serializers, the 404 raised by `get_object_or_404`, and the database
 * errors raised by a unique constraint or an `on_delete=PROTECT` rule.
 */
module Results {

  datatype Option<+T> = None | Some(value: T) {
    function GetOr(default: T): T {
      match this
      case Some(v) => v
      case None => default
    }
  }

  datatype Error =
    // RecipeCreateSerializer.validate
    | NoTags
    | NoIngredients
    | DuplicateIngredient(ingredient: int)
    | AmountBelowOne(ingredient: int)
    | CookingTimeBelowOne
    // KeyError raised by `validate` reading a key the request left out (HTTP 500)
    | MissingKey(key: string)
    // field-level validation of a CharField: nothing left after trimming, or longer than max_length
    | BlankField(field: string)
    | TooLong(field: string)
    // field-level validation of a primary-key field (an id that names no row)
    | UnknownTag(tag: int)
    | InvalidRecipe(recipe: int)
    // IsFavoriteSerializer / IsInShoppingSerializer / IsSubscribedSerializer
    | AlreadyFavorited
    | AlreadyInCart
    | SelfSubscription
    | AlreadySubscribed
    // get_object_or_404 (HTTP 404)
    | NotFound
    // IntegrityError from a UniqueConstraint
    | UniqueViolation
    // ProtectedError from on_delete=PROTECT
    | ProtectedReference

  /** A step that either passes or raises. */
  datatype Outcome = Pass | Fail(error: Error)

  /** A step that either returns a value or raises. */
  datatype Result<+T> = Ok(value: T) | Err(error: Error)
}
