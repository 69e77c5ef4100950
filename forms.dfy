/**
 * What the view controller's form handlers build from user input before they write to a
 * repository: the new recipe, tag, ingredient or calendar entry, and the stock arithmetic.
 */
module Forms {
  import opened Wrappers
  import opened Entities
  import opened ClientRepository
  import Text
  import Tags
  import Seqs

  /**
   * The save button of the add-recipe form: trimmed name and instructions, tags parsed from the
   * comma-separated input with inferred types. Saving is refused when the name or the tag list is empty.
   */
  function RecipeForm(allTags: seq<Record<TagValue>>, nameInput: string, instructionsInput: string,
                      tagsInput: string): (r: Option<Recipe>)
    ensures r.None? <==> Text.Trim(nameInput) == "" || Tags.ParseTagInput(tagsInput) == []
    ensures r.Some? ==> r.value.name == Text.Trim(nameInput) && r.value.name != ""
    ensures r.Some? ==> r.value.instructions == Text.Trim(instructionsInput) && r.value.ingredients == []
    ensures r.Some? ==> r.value.tags == Tags.TypedTags(Tags.TypeMap(allTags), Tags.ParseTagInput(tagsInput))
    ensures r.Some? ==> r.value.tags != []
  {
    var name := Text.Trim(nameInput);
    var instructions := Text.Trim(instructionsInput);
    var tags := Tags.TypedTags(Tags.TypeMap(allTags), Tags.ParseTagInput(tagsInput));
    if name == "" || |tags| == 0 then None
    else Some(NewRecipe(name, Some([]), Some(instructions), Some(tags)))
  }

  /** The save button of the add-tag form: a new, not deleted tag of the given type with a trimmed, non-empty name. */
  function TagForm(tagType: string, nameInput: string): (r: Option<Record<TagValue>>)
    ensures r.None? <==> Text.Trim(nameInput) == ""
    ensures r.Some? ==> r.value.body == TagValue(Text.Trim(nameInput), tagType, false) && r.value.id.None?
  {
    var name := Text.Trim(nameInput);
    if name == "" then None else Some(Record(TagValue(name, tagType, false), None))
  }

  /**
   * The save button of the add-ingredient form. `stockInput` is the `parseInt` of the stock field,
   * `None` for NaN; a NaN stock is replaced by 0.
   */
  function IngredientForm(nameInput: string, stockInput: Option<int>, location: string): (r: Option<Record<Ingredient>>)
    ensures r.None? <==> Text.Trim(nameInput) == ""
    ensures r.Some? ==> r.value.id.None? && r.value.body.name == Text.Trim(nameInput) && TagDerived(r.value.body)
    ensures r.Some? ==> r.value.body.stock == (if stockInput.Some? then stockInput.value else 0)
    ensures r.Some? ==> r.value.body.location == location
  {
    var name := Text.Trim(nameInput);
    var stock := stockInput.GetOr(0);
    if name == "" then None else Some(Record(NewIngredient(name, Some(stock), Some(location)), None))
  }

  /**
   * The save button of the plan-meal form: it passes only the date and the recipe name to the
   * three-parameter `CalendarEntry` constructor, so the recipe name lands in `mealType` and `recipeName` stays absent.
   */
  function CalendarForm(date: string, recipeName: string): (r: Option<Record<CalendarEntry>>)
    ensures r.None? <==> date == "" || recipeName == ""
    ensures r.Some? ==> r.value.id.None? && r.value.body.date == Some(date)
    ensures r.Some? ==> r.value.body.mealType == Some(recipeName) && r.value.body.recipeName.None?
  {
    if date == "" || recipeName == "" then None
    // The call passes `recipeName` in the second position and nothing in the third.
    else Some(Record(NewCalendarEntry(Some(date), Some(recipeName), None), None))
  }

  /** A card title in the calendar list: the entry's recipe name, or the text `undefined` when it is absent. */
  function ListTitle(e: CalendarEntry): (title: string)
    ensures e.recipeName.Some? ==> title == e.recipeName.value
    ensures e.recipeName.None? ==> title == "undefined"
  {
    e.recipeName.GetOr("undefined")
  }

  /** The card titles of the calendar list: one per fetched entry, in order. */
  function ListTitles(entries: seq<Record<CalendarEntry>>): (titles: seq<string>)
    ensures |titles| == |entries|
    ensures forall i :: 0 <= i < |entries| ==> titles[i] == ListTitle(entries[i].body)
  {
    Seqs.Map(entries, (e: Record<CalendarEntry>) => ListTitle(e.body))
  }

  /** The entry the plan-meal form sends has no `recipeName`, so its title would read `undefined`. */
  lemma PlannedMealTitleUndefined(date: string, recipeName: string)
    requires date != "" && recipeName != ""
    ensures CalendarForm(date, recipeName).Some?
    ensures ListTitle(CalendarForm(date, recipeName).value.body) == "undefined"
  {
  }

  /** The new stock of the add/remove form: the old stock plus the change, clamped at zero. */
  function AdjustedStock(stock: int, delta: int): (r: int)
    ensures r >= 0
    ensures stock + delta >= 0 ==> r == stock + delta
    ensures stock + delta < 0 ==> r == 0
  {
    var s := stock + delta;
    if s < 0 then 0 else s
  }

  /** The set-stock input is accepted only when it is a number and not negative. */
  predicate SetStockAccepted(input: Option<int>): (accepted: bool)
    ensures !accepted <==> input.None? || input.value < 0
  {
    input.Some? && input.value >= 0
  }
}
