/**
 * The backend's command layer (backend/application/application.js): each `addX` builds an
 * entity from a request body and appends it to its collection's store.
 */
module Application {
  import opened Wrappers
  import opened Json
  import Domain
  import FileStore

  /** The argument list `addRecipe` passes to the `Recipe` constructor, read from the body. */
  function RecipeOf(data: Body): (r: Domain.Recipe)
    ensures r.name == Get(data, "name")
    ensures "ingredients" !in data ==> r.ingredients == Arr([])
    ensures "ingredients" in data ==> r.ingredients == data["ingredients"]
    ensures "instructions" !in data ==> r.instructions == Str("")
    ensures "instructions" in data ==> r.instructions == data["instructions"]
    ensures "tags" !in data ==> r.tags == Arr([])
    ensures "tags" in data ==> r.tags == data["tags"]
  {
    Domain.NewRecipe(Get(data, "name"), Get(data, "ingredients"), Get(data, "instructions"), Get(data, "tags"))
  }

  /** The arguments `addTag` passes to the `Tag` constructor: only `name` and `type`. */
  function TagArgs(data: Body): (r: (Option<Value>, Option<Value>))
    ensures r.0 == Get(data, "name") && r.1 == Get(data, "type")
  {
    (Get(data, "name"), Get(data, "type"))
  }

  /** A body field other than `name` and `type`, such as `deleted`, never reaches the tag. */
  lemma TagIgnoresOtherFields(data: Body, key: string, v: Value)
    requires key != "name" && key != "type"
    ensures TagArgs(data[key := v]) == TagArgs(data)
  {
  }

  /**
   * The module's state: the four repository bindings, and the constructors of the entities
   * whose classes (`Ingredient`, `CalendarEntry`, `Tag`) are imported from files outside the model.
   */
  class Application<I, C, G> {
    const newIngredient: (Option<Value>, Option<Value>, Option<Value>) -> I
    const newCalendarEntry: (Option<Value>, Option<Value>, Option<Value>) -> C
    const newTag: (Option<Value>, Option<Value>) -> G

    var ingredientRepo: FileStore.Repository?<I>
    var recipeRepo: FileStore.Repository?<Domain.Recipe>
    var calendarRepo: FileStore.Repository?<C>
    var tagRepo: FileStore.Repository?<G>

    /** Module load: the bindings are declared with `let` and start out `undefined`. */
    constructor (newIngredient: (Option<Value>, Option<Value>, Option<Value>) -> I,
                 newCalendarEntry: (Option<Value>, Option<Value>, Option<Value>) -> C,
                 newTag: (Option<Value>, Option<Value>) -> G)
      ensures this.newIngredient == newIngredient && this.newCalendarEntry == newCalendarEntry
      ensures this.newTag == newTag
      ensures ingredientRepo == null && recipeRepo == null && calendarRepo == null && tagRepo == null
    {
      this.newIngredient := newIngredient;
      this.newCalendarEntry := newCalendarEntry;
      this.newTag := newTag;
      ingredientRepo, recipeRepo, calendarRepo, tagRepo := null, null, null, null;
    }

    /** `setRepositories`: bind all four repositories. */
    method SetRepositories(ingredientRepo: FileStore.Repository<I>,
                           recipeRepo: FileStore.Repository<Domain.Recipe>,
                           calendarRepo: FileStore.Repository<C>,
                           tagRepo: FileStore.Repository<G>)
      modifies this
      ensures this.ingredientRepo == ingredientRepo && this.recipeRepo == recipeRepo
      ensures this.calendarRepo == calendarRepo && this.tagRepo == tagRepo
    {
      this.ingredientRepo := ingredientRepo;
      this.recipeRepo := recipeRepo;
      this.calendarRepo := calendarRepo;
      this.tagRepo := tagRepo;
    }

    /** `addIngredient`: build from `name`, `stock`, `location`, append, return the entity. */
    method AddIngredient(data: Body) returns (ingredient: I)
      requires ingredientRepo != null
      modifies ingredientRepo
      ensures ingredient == newIngredient(Get(data, "name"), Get(data, "stock"), Get(data, "location"))
      ensures ingredientRepo.data == old(ingredientRepo.data) + [ingredient]
      ensures ingredientRepo.Persisted()
      ensures recipeRepo != null && recipeRepo as object != ingredientRepo ==> unchanged(recipeRepo)
      ensures calendarRepo != null && calendarRepo as object != ingredientRepo ==> unchanged(calendarRepo)
      ensures tagRepo != null && tagRepo as object != ingredientRepo ==> unchanged(tagRepo)
    {
      ingredient := newIngredient(Get(data, "name"), Get(data, "stock"), Get(data, "location"));
      ingredientRepo.Add(ingredient);
    }

    /** `addRecipe`: build from the four recipe fields, append, return the entity. */
    method AddRecipe(data: Body) returns (recipe: Domain.Recipe)
      requires recipeRepo != null
      modifies recipeRepo
      ensures recipe == RecipeOf(data)
      ensures recipeRepo.data == old(recipeRepo.data) + [recipe]
      ensures recipeRepo.Persisted()
      ensures ingredientRepo != null && ingredientRepo as object != recipeRepo ==> unchanged(ingredientRepo)
      ensures calendarRepo != null && calendarRepo as object != recipeRepo ==> unchanged(calendarRepo)
      ensures tagRepo != null && tagRepo as object != recipeRepo ==> unchanged(tagRepo)
    {
      recipe := RecipeOf(data);
      recipeRepo.Add(recipe);
    }

    /** `addCalendarEntry`: build from `date`, `mealType`, `recipeName`, append, return the entity. */
    method AddCalendarEntry(data: Body) returns (entry: C)
      requires calendarRepo != null
      modifies calendarRepo
      ensures entry == newCalendarEntry(Get(data, "date"), Get(data, "mealType"), Get(data, "recipeName"))
      ensures calendarRepo.data == old(calendarRepo.data) + [entry]
      ensures calendarRepo.Persisted()
      ensures ingredientRepo != null && ingredientRepo as object != calendarRepo ==> unchanged(ingredientRepo)
      ensures recipeRepo != null && recipeRepo as object != calendarRepo ==> unchanged(recipeRepo)
      ensures tagRepo != null && tagRepo as object != calendarRepo ==> unchanged(tagRepo)
    {
      entry := newCalendarEntry(Get(data, "date"), Get(data, "mealType"), Get(data, "recipeName"));
      calendarRepo.Add(entry);
    }

    /** `addTag`: build from `name` and `type` only, append, return the entity. */
    method AddTag(data: Body) returns (tag: G)
      requires tagRepo != null
      modifies tagRepo
      ensures tag == newTag(TagArgs(data).0, TagArgs(data).1)
      ensures tagRepo.data == old(tagRepo.data) + [tag]
      ensures tagRepo.Persisted()
      ensures ingredientRepo != null && ingredientRepo as object != tagRepo ==> unchanged(ingredientRepo)
      ensures recipeRepo != null && recipeRepo as object != tagRepo ==> unchanged(recipeRepo)
      ensures calendarRepo != null && calendarRepo as object != tagRepo ==> unchanged(calendarRepo)
    {
      var args := TagArgs(data);
      tag := newTag(args.0, args.1);
      tagRepo.Add(tag);
    }
  }
}
