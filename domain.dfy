/** The backend's `Recipe` entity (backend/domain/Recipe.js). */
module Domain {
  import opened Wrappers
  import opened Json

  /** A backend recipe; `name` is kept even when it is `undefined`. */
  datatype Recipe = Recipe(name: Option<Value>, ingredients: Value, instructions: Value, tags: Value)

  /**
   * `new Recipe(name, ingredients = [], instructions = '', tags = [])`.
   * A default replaces only an omitted (`undefined`) argument; any other value, `null` included,
   * is stored as given.
   */
  function NewRecipe(name: Option<Value>, ingredients: Option<Value>,
                     instructions: Option<Value>, tags: Option<Value>): (r: Recipe)
    ensures r.name == name
    ensures ingredients.None? ==> r.ingredients == Arr([])
    ensures ingredients.Some? ==> r.ingredients == ingredients.value
    ensures instructions.None? ==> r.instructions == Str("")
    ensures instructions.Some? ==> r.instructions == instructions.value
    ensures tags.None? ==> r.tags == Arr([])
    ensures tags.Some? ==> r.tags == tags.value
  {
    Recipe(name, ingredients.GetOr(Arr([])), instructions.GetOr(Str("")), tags.GetOr(Arr([])))
  }
}
