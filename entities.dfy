/**
 * The frontend's entity classes (frontend/assets/classes/Ingredient.js, Recipe.js,
 * CalendarEntry.js) and the tag objects they carry.
 */
module Entities {
  import opened Wrappers

  /**
   * A tag object `{name, type, deleted}`. `type` is a reserved word here, hence `tagType`;
   * an absent `deleted` is `false`, which is all the code ever reads of it (its truthiness).
   */
  datatype TagValue = TagValue(name: string, tagType: string, deleted: bool)

  datatype Ingredient = Ingredient(name: string, stock: int, location: string, tag: TagValue)

  /** A recipe; `ingredients` holds ingredient names. */
  datatype Recipe = Recipe(name: string, ingredients: seq<string>, instructions: string, tags: seq<TagValue>)

  /** A calendar entry; a field whose argument was omitted is absent (`None`). */
  datatype CalendarEntry = CalendarEntry(date: Option<string>, mealType: Option<string>, recipeName: Option<string>)

  /** The tag an ingredient derives from its name. */
  ghost predicate TagDerived(i: Ingredient) {
    i.tag == TagValue(i.name, "ingredient", false)
  }

  /** The frontend `Ingredient` constructor: stock defaults to 0 and location to `pantry`. */
  function NewIngredient(name: string, stock: Option<int>, location: Option<string>): (r: Ingredient)
    ensures r.name == name && TagDerived(r)
    ensures r.stock == (if stock.Some? then stock.value else 0)
    ensures r.location == (if location.Some? then location.value else "pantry")
  {
    Ingredient(name, stock.GetOr(0), location.GetOr("pantry"), TagValue(name, "ingredient", false))
  }

  /** Omitting stock and location is the same as passing `0` and `'pantry'`. */
  lemma IngredientDefaults(name: string)
    ensures NewIngredient(name, None, None) == NewIngredient(name, Some(0), Some("pantry"))
  {
  }

  /** The constructor does not clamp: a negative stock is stored as it is. */
  lemma IngredientStockNotClamped(name: string, stock: int)
    requires stock < 0
    ensures NewIngredient(name, Some(stock), None).stock < 0
  {
  }

  /** The frontend `Recipe` constructor: ingredients and tags default to empty lists, instructions to the empty text. */
  function NewRecipe(name: string, ingredients: Option<seq<string>>, instructions: Option<string>,
                     tags: Option<seq<TagValue>>): (r: Recipe)
    ensures r.name == name
    ensures r.ingredients == (if ingredients.Some? then ingredients.value else [])
    ensures r.instructions == (if instructions.Some? then instructions.value else "")
    ensures r.tags == (if tags.Some? then tags.value else [])
  {
    Recipe(name, ingredients.GetOr([]), instructions.GetOr(""), tags.GetOr([]))
  }

  /** Omitting the optional arguments is the same as passing `[]`, `''` and `[]`. */
  lemma RecipeDefaults(name: string)
    ensures NewRecipe(name, None, None, None) == NewRecipe(name, Some([]), Some(""), Some([]))
  {
  }

  /** The frontend `CalendarEntry` constructor: date, meal type and recipe name, positional, with no defaults. */
  function NewCalendarEntry(date: Option<string>, mealType: Option<string>, recipeName: Option<string>): (r: CalendarEntry)
    ensures r.date == date && r.mealType == mealType && r.recipeName == recipeName
  {
    CalendarEntry(date, mealType, recipeName)
  }
}
