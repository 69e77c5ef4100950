/**
 * The view controller (frontend/assets/classes/MealPlannerApp.js) without its markup: the reads
 * behind its views and the save handlers of its forms, each ending in one repository call.
 */
module Controller {
  import opened Wrappers
  import opened Entities
  import opened ClientRepository
  import Text
  import Tags
  import Search
  import Forms

  /** How a handler ends: the write went through, an alert refused the input, or the proxy threw. */
  datatype Outcome = Saved | Refused(message: string) | Failed(error: ProxyError)

  /** The first tag in the list whose `id` is `tagId` and that is not soft-deleted. */
  function FindActiveTag(list: seq<Record<TagValue>>, tagId: int): (r: Option<Record<TagValue>>)
    ensures r.Some? ==> r.value in list && r.value.id == Some(tagId) && !r.value.body.deleted
    ensures r.None? <==> forall k :: 0 <= k < |list| ==> list[k].id != Some(tagId) || list[k].body.deleted
    ensures r.Some? ==>
              exists k :: 0 <= k < |list| && list[k] == r.value
                          && forall j :: 0 <= j < k ==> list[j].id != Some(tagId) || list[j].body.deleted
  {
    if list == [] then None
    else if list[0].id == Some(tagId) && !list[0].body.deleted then Some(list[0])
    else FindActiveTag(list[1..], tagId)
  }

  /** In a fetched (decorated) list, the active tag with id `tagId` is the one at that position. */
  lemma FindActiveTagDecorated(items: seq<Record<TagValue>>, tagId: int)
    ensures FindActiveTag(Decorate(items), tagId) ==
              if 0 <= tagId < |items| && !items[tagId].body.deleted then Some(Decorate(items)[tagId]) else None
  {
    var list := Decorate(items);
    var r := FindActiveTag(list, tagId);
    if 0 <= tagId < |items| && !items[tagId].body.deleted {
      assert list[tagId].id == Some(tagId);
      var k :| 0 <= k < |list| && list[k] == r.value;
      assert k == tagId;
    }
  }

  /** The ingredient `showManageIngredientModal` works on: found by id, else taken by index. */
  function FindForManage(list: seq<Record<Ingredient>>, idOrIdx: int): (r: Option<Record<Ingredient>>)
    ensures r.Some? ==> r.value in list
    ensures FindById(list, idOrIdx).Some? ==> r == FindById(list, idOrIdx)
    ensures FindById(list, idOrIdx).None? && 0 <= idOrIdx < |list| ==> r == Some(list[idOrIdx])
    ensures r.None? <==> FindById(list, idOrIdx).None? && !(0 <= idOrIdx < |list|)
  {
    match FindById(list, idOrIdx)
    case Some(x) => Some(x)
    case None => if 0 <= idOrIdx < |list| then Some(list[idOrIdx]) else None
  }

  /** In a fetched list the index fallback never matters: the lookup is by position. */
  lemma FindForManageDecorated(items: seq<Record<Ingredient>>, idOrIdx: int)
    ensures FindForManage(Decorate(items), idOrIdx) ==
              if 0 <= idOrIdx < |items| then Some(Decorate(items)[idOrIdx]) else None
  {
    FindByIdDecorated(items, idOrIdx);
  }

  class MealPlannerApp {
    const ingredientRepo: Repository<Ingredient>
    const recipeRepo: Repository<Recipe>
    const tagRepo: Repository<TagValue>
    const calendarRepo: Repository<CalendarEntry>

    /**
     * The app with its four collection proxies, built for the keys `ingredients`, `recipes`, `tags`
     * and `calendar`; each proxy then talks to the endpoint of the same name.
     */
    constructor (ingredientRepo: Repository<Ingredient>, recipeRepo: Repository<Recipe>,
                 tagRepo: Repository<TagValue>, calendarRepo: Repository<CalendarEntry>)
      requires ingredientRepo.key == "ingredients" && recipeRepo.key == "recipes"
      requires tagRepo.key == "tags" && calendarRepo.key == "calendar"
      ensures this.ingredientRepo == ingredientRepo && this.recipeRepo == recipeRepo
      ensures this.tagRepo == tagRepo && this.calendarRepo == calendarRepo
      ensures this.ingredientRepo.endpoint == "ingredients" && this.recipeRepo.endpoint == "recipes"
      ensures this.tagRepo.endpoint == "tags" && this.calendarRepo.endpoint == "calendar"
    {
      this.ingredientRepo := ingredientRepo;
      this.recipeRepo := recipeRepo;
      this.tagRepo := tagRepo;
      this.calendarRepo := calendarRepo;
    }

    /** `getAllTags`: fetch ingredients, then tags, and aggregate; either failed fetch throws. */
    method GetAllTags(okIngredients: bool, okTags: bool) returns (r: Result<seq<Record<TagValue>>, ProxyError>)
      ensures okIngredients && okTags ==>
                r == Success(Tags.AllTags(Decorate(ingredientRepo.backend.data), Decorate(tagRepo.backend.data)))
      ensures !okIngredients ==> r == Failure(FetchFailed(ingredientRepo.endpoint))
      ensures okIngredients && !okTags ==> r == Failure(FetchFailed(tagRepo.endpoint))
    {
      var ingredients := ingredientRepo.GetAll(okIngredients);
      if ingredients.Failure? {
        return Failure(ingredients.error);
      }
      var remote := tagRepo.GetAll(okTags);
      if remote.Failure? {
        return Failure(remote.error);
      }
      r := Success(Tags.AllTags(ingredients.value, remote.value));
    }

    /** The tag list of one type in `renderTagsList` and `renderTagsView`. */
    method TagsOfType(tagType: string, okIngredients: bool, okTags: bool) returns (r: Result<seq<Record<TagValue>>, ProxyError>)
      ensures okIngredients && okTags ==> r == Success(Tags.OfType(
                Tags.AllTags(Decorate(ingredientRepo.backend.data), Decorate(tagRepo.backend.data)), tagType))
      ensures !(okIngredients && okTags) ==> r.Failure?
    {
      var all := GetAllTags(okIngredients, okTags);
      if all.Failure? {
        return Failure(all.error);
      }
      r := Success(Tags.OfType(all.value, tagType));
    }

    /** The recipes `renderRecipesList` shows for a search text. */
    method RecipesList(filter: string, ok: bool) returns (r: Result<seq<Record<Recipe>>, ProxyError>)
      ensures ok ==> r == Success(Search.FilterRecipes(Decorate(recipeRepo.backend.data), filter))
      ensures !ok ==> r == Failure(FetchFailed(recipeRepo.endpoint))
    {
      var recipes := recipeRepo.GetAll(ok);
      if recipes.Failure? {
        return Failure(recipes.error);
      }
      r := Success(Search.FilterRecipes(recipes.value, filter));
    }

    /** Save in the add-recipe form; `allTags` is the aggregate fetched when the form opened. */
    method SaveRecipe(allTags: seq<Record<TagValue>>, nameInput: string, instructionsInput: string,
                      tagsInput: string, ok: bool) returns (outcome: Outcome)
      modifies recipeRepo.backend
      ensures Forms.RecipeForm(allTags, nameInput, instructionsInput, tagsInput).None? ==>
                outcome == Refused("Recipe name and at least one tag are required.") && unchanged(recipeRepo.backend)
      ensures Forms.RecipeForm(allTags, nameInput, instructionsInput, tagsInput).Some? && ok ==>
                outcome == Saved && recipeRepo.backend.Persisted()
                && recipeRepo.backend.data == old(recipeRepo.backend.data)
                   + [recipeRepo.create(Record(Forms.RecipeForm(allTags, nameInput, instructionsInput, tagsInput).value, None))]
      ensures Forms.RecipeForm(allTags, nameInput, instructionsInput, tagsInput).Some? && !ok ==>
                outcome == Failed(AddFailed(recipeRepo.endpoint)) && unchanged(recipeRepo.backend)
    {
      var recipe := Forms.RecipeForm(allTags, nameInput, instructionsInput, tagsInput);
      if recipe.None? {
        return Refused("Recipe name and at least one tag are required.");
      }
      var added := recipeRepo.Add(Record(recipe.value, None), ok);
      outcome := if added.Success? then Saved else Failed(added.error);
    }

    /** Save in the add-tag form; the refusal alert shows the text of the `ingredientName` key. */
    method SaveTag(tagType: string, nameInput: string, ok: bool) returns (outcome: Outcome)
      modifies tagRepo.backend
      ensures Text.Trim(nameInput) == "" ==> outcome == Refused("ingredientName") && unchanged(tagRepo.backend)
      ensures Text.Trim(nameInput) != "" && ok ==>
                outcome == Saved && tagRepo.backend.Persisted()
                && tagRepo.backend.data == old(tagRepo.backend.data)
                   + [tagRepo.create(Record(TagValue(Text.Trim(nameInput), tagType, false), None))]
      ensures Text.Trim(nameInput) != "" && !ok ==> outcome == Failed(AddFailed(tagRepo.endpoint)) && unchanged(tagRepo.backend)
    {
      var tag := Forms.TagForm(tagType, nameInput);
      if tag.None? {
        return Refused("ingredientName");
      }
      var added := tagRepo.Add(tag.value, ok);
      outcome := if added.Success? then Saved else Failed(added.error);
    }

    /** Save in the add-ingredient form. */
    method SaveIngredient(nameInput: string, stockInput: Option<int>, location: string, ok: bool) returns (outcome: Outcome)
      modifies ingredientRepo.backend
      ensures Text.Trim(nameInput) == "" ==> outcome == Refused("Ingredient name is required.") && unchanged(ingredientRepo.backend)
      ensures Text.Trim(nameInput) != "" && ok ==>
                outcome == Saved && ingredientRepo.backend.Persisted()
                && ingredientRepo.backend.data == old(ingredientRepo.backend.data)
                   + [ingredientRepo.create(Forms.IngredientForm(nameInput, stockInput, location).value)]
      ensures Text.Trim(nameInput) != "" && !ok ==>
                outcome == Failed(AddFailed(ingredientRepo.endpoint)) && unchanged(ingredientRepo.backend)
    {
      var ingredient := Forms.IngredientForm(nameInput, stockInput, location);
      if ingredient.None? {
        return Refused("Ingredient name is required.");
      }
      var added := ingredientRepo.Add(ingredient.value, ok);
      outcome := if added.Success? then Saved else Failed(added.error);
    }

    /** Save in the plan-meal form. */
    method SaveCalendarEntry(date: string, recipeName: string, ok: bool) returns (outcome: Outcome)
      modifies calendarRepo.backend
      ensures (date == "" || recipeName == "") ==>
                outcome == Refused("Date and recipe are required.") && unchanged(calendarRepo.backend)
      ensures date != "" && recipeName != "" && ok ==>
                outcome == Saved && calendarRepo.backend.Persisted()
                && calendarRepo.backend.data == old(calendarRepo.backend.data)
                   + [calendarRepo.create(Record(CalendarEntry(Some(date), Some(recipeName), None), None))]
      ensures date != "" && recipeName != "" && !ok ==>
                outcome == Failed(AddFailed(calendarRepo.endpoint)) && unchanged(calendarRepo.backend)
    {
      var entry := Forms.CalendarForm(date, recipeName);
      if entry.None? {
        return Refused("Date and recipe are required.");
      }
      var added := calendarRepo.Add(entry.value, ok);
      outcome := if added.Success? then Saved else Failed(added.error);
    }

    /** `renderCalendarList` without its markup: fetch the entries and title one card per entry. */
    method CalendarTitles(ok: bool) returns (r: Result<seq<string>, ProxyError>)
      ensures ok ==> r.Success? && |r.value| == |calendarRepo.backend.data|
      ensures ok ==> forall i :: 0 <= i < |r.value| ==> r.value[i] == Forms.ListTitle(calendarRepo.backend.data[i].body)
      ensures !ok ==> r == Failure(FetchFailed(calendarRepo.endpoint))
    {
      var entries := calendarRepo.GetAll(ok);
      if entries.Failure? {
        return Failure(entries.error);
      }
      r := Success(Forms.ListTitles(entries.value));
    }

    /**
     * A meal planned from the frontend and the calendar list fetched afterwards: when the backend
     * keeps an absent `recipeName` absent, the new entry's card, the last one, is titled `undefined`.
     */
    method PlannedMealListedUndefined(date: string, recipeName: string) returns (titles: seq<string>)
      requires date != "" && recipeName != ""
      requires forall x: Record<CalendarEntry> :: x.body.recipeName.None? ==> calendarRepo.create(x).body.recipeName.None?
      modifies calendarRepo.backend
      ensures |titles| == |old(calendarRepo.backend.data)| + 1
      ensures titles[|titles| - 1] == "undefined"
    {
      var outcome := SaveCalendarEntry(date, recipeName, true);
      var listed := CalendarTitles(true);
      titles := listed.value;
    }

    /**
     * `showEditTagModal` followed by its save button: fetch the tags, find the active one with id
     * `tagId`, and write it back at its id with only its name changed.
     */
    method RenameTag(tagId: int, okFetch: bool, nameInput: string, okUpdate: bool) returns (outcome: Outcome)
      modifies tagRepo.backend
      ensures !okFetch ==> outcome == Failed(FetchFailed(tagRepo.endpoint)) && unchanged(tagRepo.backend)
      ensures okFetch && Text.Trim(nameInput) == "" ==> outcome == Refused("ingredientName") && unchanged(tagRepo.backend)
      ensures okFetch && Text.Trim(nameInput) != "" && !(0 <= tagId < |old(tagRepo.backend.data)|
                && !old(tagRepo.backend.data)[tagId].body.deleted) ==>
                outcome == Refused("Tag not found.") && unchanged(tagRepo.backend)
      ensures okFetch && Text.Trim(nameInput) != "" && 0 <= tagId < |old(tagRepo.backend.data)|
                && !old(tagRepo.backend.data)[tagId].body.deleted && okUpdate ==>
                outcome == Saved && tagRepo.backend.Persisted()
                && tagRepo.backend.data == old(tagRepo.backend.data)[tagId :=
                     Record(old(tagRepo.backend.data)[tagId].body.(name := Text.Trim(nameInput)), Some(tagId))]
      ensures okFetch && Text.Trim(nameInput) != "" && 0 <= tagId < |old(tagRepo.backend.data)|
                && !old(tagRepo.backend.data)[tagId].body.deleted && !okUpdate ==>
                outcome == Failed(UpdateFailed(tagRepo.endpoint, tagId)) && unchanged(tagRepo.backend)
    {
      var all := tagRepo.GetAll(okFetch);
      if all.Failure? {
        return Failed(all.error);
      }
      FindActiveTagDecorated(tagRepo.backend.data, tagId);
      var tag := FindActiveTag(all.value, tagId);
      var newName := Text.Trim(nameInput);
      if newName == "" {
        return Refused("ingredientName");
      }
      if tag.None? {
        return Refused("Tag not found.");
      }
      var updated := Record(tag.value.body.(name := newName), tag.value.id);
      if tag.value.id.None? {
        return Refused("Tag has no id and cannot be updated.");
      }
      var written := tagRepo.Update(tag.value.id.value, updated, okUpdate);
      outcome := if written.Success? then Saved else Failed(written.error);
    }

    /** `softDeleteTag`: fetch the tags, find the one with id `tagId`, write it back with `deleted: true`. */
    method SoftDeleteTag(tagId: int, okFetch: bool, okUpdate: bool) returns (outcome: Outcome)
      modifies tagRepo.backend
      ensures !okFetch ==> outcome == Failed(FetchFailed(tagRepo.endpoint)) && unchanged(tagRepo.backend)
      ensures okFetch && !(0 <= tagId < |old(tagRepo.backend.data)|) ==>
                outcome == Refused("Could not find tag to delete.") && unchanged(tagRepo.backend)
      ensures okFetch && 0 <= tagId < |old(tagRepo.backend.data)| && okUpdate ==>
                outcome == Saved && tagRepo.backend.Persisted()
                && tagRepo.backend.data == old(tagRepo.backend.data)[tagId :=
                     Record(old(tagRepo.backend.data)[tagId].body.(deleted := true), Some(tagId))]
      ensures okFetch && 0 <= tagId < |old(tagRepo.backend.data)| && !okUpdate ==>
                outcome == Failed(UpdateFailed(tagRepo.endpoint, tagId)) && unchanged(tagRepo.backend)
    {
      var all := tagRepo.GetAll(okFetch);
      if all.Failure? {
        return Failed(all.error);
      }
      FindByIdDecorated(tagRepo.backend.data, tagId);
      var tag := FindById(all.value, tagId);
      if tag.None? {
        return Refused("Could not find tag to delete.");
      }
      var updated := Record(tag.value.body.(deleted := true), tag.value.id);
      if tag.value.id.None? {
        return Refused("Tag has no id and cannot be deleted.");
      }
      var written := tagRepo.Update(tag.value.id.value, updated, okUpdate);
      outcome := if written.Success? then Saved else Failed(written.error);
    }

    /** `showManageIngredientModal`: fetch and find the ingredient; no modal when the lookup fails. */
    method ShowManageIngredient(idOrIdx: int, ok: bool) returns (modal: ManageIngredientModal?)
      ensures modal == null <==> !ok || !(0 <= idOrIdx < |ingredientRepo.backend.data|)
      ensures modal != null ==> fresh(modal) && modal.Valid() && modal.repo == ingredientRepo
      ensures modal != null ==> modal.idOrIdx == idOrIdx
      ensures modal != null ==> modal.ingredient == WithId(ingredientRepo.backend.data[idOrIdx], idOrIdx)
    {
      var all := ingredientRepo.GetAll(ok);
      if all.Failure? {
        return null;
      }
      FindForManageDecorated(ingredientRepo.backend.data, idOrIdx);
      var ingredient := FindForManage(all.value, idOrIdx);
      if ingredient.None? {
        return null;
      }
      modal := new ManageIngredientModal(ingredientRepo, idOrIdx, ingredient.value);
    }
  }

  /**
   * The open manage-stock form. Its handlers change the captured `ingredient` object in place and
   * then write it back; the local change stays even when the write fails.
   */
  class ManageIngredientModal {
    const repo: Repository<Ingredient>
    const idOrIdx: int
    var ingredient: Record<Ingredient>

    /** The position the handlers write to: the ingredient's own `id` when it has one, else `idOrIdx`. */
    function IdToUse(): (id: int)
      reads this
      ensures ingredient.id.Some? ==> id == ingredient.id.value
      ensures ingredient.id.None? ==> id == idOrIdx
    {
      if ingredient.id.Some? then ingredient.id.value else idOrIdx
    }

    /** The position the handlers write to is inside the backend array. */
    ghost predicate Valid()
      reads this, repo.backend
    {
      0 <= IdToUse() < |repo.backend.data|
    }

    constructor (repo: Repository<Ingredient>, idOrIdx: int, ingredient: Record<Ingredient>)
      requires 0 <= (if ingredient.id.Some? then ingredient.id.value else idOrIdx) < |repo.backend.data|
      ensures this.repo == repo && this.idOrIdx == idOrIdx && this.ingredient == ingredient
      ensures Valid()
    {
      this.repo := repo;
      this.idOrIdx := idOrIdx;
      this.ingredient := ingredient;
    }

    /** The add/remove button: reject NaN; otherwise add the amount, clamp at zero, write back. */
    method AddRemoveStock(input: Option<int>, ok: bool) returns (outcome: Outcome)
      requires Valid()
      modifies this, repo.backend
      ensures Valid() && IdToUse() == old(IdToUse())
      ensures input.None? ==>
                outcome == Refused("Enter a valid number to add/remove.")
                && ingredient == old(ingredient) && unchanged(repo.backend)
      ensures input.Some? ==> ingredient == old(ingredient).(body := old(ingredient).body.(
                stock := Forms.AdjustedStock(old(ingredient).body.stock, input.value)))
      ensures input.Some? && ok ==>
                outcome == Saved && repo.backend.Persisted()
                && repo.backend.data == old(repo.backend.data)[IdToUse() := ingredient]
      ensures input.Some? && !ok ==> outcome == Failed(UpdateFailed(repo.endpoint, IdToUse())) && unchanged(repo.backend)
    {
      if input.None? {
        return Refused("Enter a valid number to add/remove.");
      }
      ingredient := ingredient.(body := ingredient.body.(stock := ingredient.body.stock + input.value));
      if ingredient.body.stock < 0 {
        ingredient := ingredient.(body := ingredient.body.(stock := 0));
      }
      var written := repo.Update(IdToUse(), ingredient, ok);
      outcome := if written.Success? then Saved else Failed(written.error);
    }

    /** The set-value button: reject NaN and negatives; otherwise store the value exactly, write back. */
    method SetStock(input: Option<int>, ok: bool) returns (outcome: Outcome)
      requires Valid()
      modifies this, repo.backend
      ensures Valid() && IdToUse() == old(IdToUse())
      ensures !Forms.SetStockAccepted(input) ==>
                outcome == Refused("Enter a valid non-negative number.")
                && ingredient == old(ingredient) && unchanged(repo.backend)
      ensures Forms.SetStockAccepted(input) ==>
                ingredient == old(ingredient).(body := old(ingredient).body.(stock := input.value))
      ensures Forms.SetStockAccepted(input) && ok ==>
                outcome == Saved && repo.backend.Persisted()
                && repo.backend.data == old(repo.backend.data)[IdToUse() := ingredient]
      ensures Forms.SetStockAccepted(input) && !ok ==>
                outcome == Failed(UpdateFailed(repo.endpoint, IdToUse())) && unchanged(repo.backend)
    {
      if !Forms.SetStockAccepted(input) {
        return Refused("Enter a valid non-negative number.");
      }
      ingredient := ingredient.(body := ingredient.body.(stock := input.value));
      var written := repo.Update(IdToUse(), ingredient, ok);
      outcome := if written.Success? then Saved else Failed(written.error);
    }
  }
}
