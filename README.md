# Meal planner: collection stores, client proxy and view logic

A small meal-planning web application keeps four collections: ingredients, recipes, calendar entries and tags.

- **Backend.** Each collection is held in a flat-file store: one in-memory array, written back whole to its JSON file after every change. A command layer builds entities from request bodies and appends them to the right store.
- **Frontend.** A proxy object per collection fetches the backend array. It stamps each record with an `id` equal to its position, and addresses updates and deletes by that position.
- **View controller.** It aggregates tags, filters tag views and recipes, parses typed-in tags and infers their types, and adjusts ingredient stock. Its form handlers write through the proxies.

This project models that core in Dafny and proves its properties.

| module | file | what it models |
|---|---|---|
| `FileStore` | `file_store.dfy` | the backend store (`backend/infrastructure/repository.js`) as a class with a `seq` field and a ghost copy of the file |
| `Json` | `json.dfy` | request bodies as JSON maps; property access with `undefined` as `None` |
| `Domain` | `domain.dfy` | the backend `Recipe` constructor and its default parameters |
| `Application` | `application.dfy` | the command layer: the four repository bindings as fields of a class, and each `addX` as a method |
| `Entities` | `entities.dfy` | the frontend `Ingredient`, `Recipe` and `CalendarEntry` constructors |
| `ClientRepository` | `client_repository.dfy` | the frontend proxy: id decoration as a function, and the requests as methods on a class over a backend store |
| `Tags`, `Search`, `Forms` | `tags.dfy`, `search.dfy`, `forms.dfy` | the view controller's pure logic |
| `Controller` | `controller.dfy` | the view controller's handlers as methods, including the in-place stock mutation of the manage-stock form |
| `Text`, `Seqs`, `Wrappers` | `text.dfy`, `seqs.dfy`, `wrappers.dfy` | `trim`, `split`, `toLowerCase`, `includes`, `filter`, and `Option`/`Result` |

Modelling choices:

- **Backing file.** The file is the ghost field `file`. Its value is `Missing`, `Unreadable` (cannot be read, or is not valid JSON) or `Stored(items)`. `Persisted()` says the file holds exactly `data`.
- **Transport outcome.** Whether a response is ok is a `bool` parameter of each proxy call. A non-ok response becomes a `Failure` carrying the error the proxy throws.
- **Server-side POST.** What the backend builds from a POSTed body is the proxy's `create` function. The PUT handler stores the body exactly as sent, and modelled PUT and DELETE responses are `{ success: true }` (`Success(true)`), as the routes in `backend/index.js` send.
- **Absent values.** An absent JavaScript value is `None`. An absent `deleted` on a tag reads as `false`; the code only tests its truthiness.
- **Unseen constructors.** The backend `Ingredient`, `CalendarEntry` and `Tag` classes are imported by the command layer but are not part of this model. They are constructor functions held by the `Application` class.
- **Alert text.** An alert that shows a translated text is modelled by its translation key (`Refused("ingredientName")`). The language table is not part of this model.
- **CalendarEntry call.** The plan-meal form calls `new CalendarEntry(date, recipeName)`, two arguments to a three-parameter constructor. The model keeps the call as written, so the recipe name lands in `mealType` and `recipeName` is absent. `Forms.PlannedMealTitleUndefined` proves the consequence for the entry the form sends: it has no `recipeName`. `Controller.MealPlannerApp.PlannedMealListedUndefined` carries this through the backend and the next fetch. If the backend's `CalendarEntry` constructor keeps an absent `recipeName` absent, the new card in the calendar list is titled `undefined`.

## Model

| member | source | states |
|---|---|---|
| FileStore.Load | backend/infrastructure/repository.js:9-19 | a missing file yields `[]` and is created holding `[]`; a file that cannot be read or is not valid JSON yields `[]` and is left as it is; otherwise the stored array is loaded |
| FileStore.LoadIdempotent | backend/infrastructure/repository.js:9-19 | loading again from the file the first load left gives the same array and file |
| FileStore.SaveLoadRoundTrip | backend/infrastructure/repository.js:14-23 | reloading a file written by `_save` yields exactly the saved array |
| FileStore.RemoveAt | backend/infrastructure/repository.js:40 | `splice(index, 1)` shortens by one, keeps earlier elements, and shifts every later element one place left |
| FileStore.Repository.constructor | backend/infrastructure/repository.js:4-7 | the store starts with the loaded array; a missing file is then persisted as `[]`, and an unreadable one is kept |
| FileStore.Repository.Save | backend/infrastructure/repository.js:21-23 | the whole file is overwritten with the whole array, and the array is unchanged, so reloading it yields that array |
| FileStore.Repository.GetAll | backend/infrastructure/repository.js:25-27 | returns the current array and changes nothing |
| FileStore.Repository.Add | backend/infrastructure/repository.js:29-32 | `data' == data + [item]`, and the file then holds `data'`, so reloading it yields that array |
| FileStore.Repository.Update | backend/infrastructure/repository.js:34-37 | for an in-range index, `data' == data[index := item]`, and the file then holds `data'`, so reloading it yields that array |
| FileStore.Repository.Delete | backend/infrastructure/repository.js:39-42 | for an in-range index, `data'` is `data` with that element removed and later ones shifted left, and the file then holds `data'`, so reloading it yields that array |
| Json.Get | backend/application/application.js:20 | `data.key` is defined exactly when the body has the field, and then it is the field's value |
| Domain.NewRecipe | backend/domain/Recipe.js:2-6 | `name` is kept as given; ingredients, instructions and tags default to `[]`, `''` and `[]` only when `undefined`; otherwise each is stored as given |
| Application.RecipeOf | backend/application/application.js:26 | a field missing from the body gets the recipe's default; a field present is stored as given |
| Application.TagArgs | backend/application/application.js:38 | the tag constructor receives exactly the body's `name` and `type` |
| Application.TagIgnoresOtherFields | backend/application/application.js:37-41 | changing any body field other than `name` and `type` (such as `deleted`) leaves the tag arguments unchanged |
| Application.Application.constructor | backend/application/application.js:7-10 | the four bindings start out unset |
| Application.Application.SetRepositories | backend/application/application.js:12-17 | all four bindings are taken from the given record |
| Application.Application.AddIngredient | backend/application/application.js:19-23 | the entity built from `name`, `stock` and `location` is appended once to the ingredient store, which is persisted, and it is returned; the other stores are unchanged |
| Application.Application.AddRecipe | backend/application/application.js:25-29 | the recipe built from the four fields, with defaults, is appended once to the recipe store, persisted and returned; the other stores are unchanged |
| Application.Application.AddCalendarEntry | backend/application/application.js:31-35 | the entry built from `date`, `mealType` and `recipeName` is appended once to the calendar store, persisted and returned; the other stores are unchanged |
| Application.Application.AddTag | backend/application/application.js:37-41 | the tag built from `name` and `type` alone is appended once to the tag store, persisted and returned; the other stores are unchanged |
| Entities.NewIngredient | frontend/assets/classes/Ingredient.js:2-6 | name, stock and location are stored as given, with defaults `0` and `'pantry'`; the tag is `{name, type: 'ingredient'}` |
| Entities.IngredientDefaults | frontend/assets/classes/Ingredient.js:2 | omitting stock and location equals passing `0` and `'pantry'` |
| Entities.IngredientStockNotClamped | frontend/assets/classes/Ingredient.js:4 | a negative stock is stored unchanged |
| Entities.NewRecipe | frontend/assets/classes/Recipe.js:2-6 | name as given; ingredients, instructions and tags default to `[]`, `''` and `[]`, and are otherwise stored as given |
| Entities.RecipeDefaults | frontend/assets/classes/Recipe.js:2 | omitting the optional arguments equals passing `[]`, `''` and `[]` |
| Entities.NewCalendarEntry | frontend/assets/classes/CalendarEntry.js:2-6 | the three fields are stored positionally; an omitted argument stays absent |
| ClientRepository.MapKey | frontend/assets/classes/Repository.js:9-17 | every key, known or not, is its own endpoint |
| ClientRepository.WithId | frontend/assets/classes/Repository.js:24 | `{...r, id}` keeps the fields and sets `id`, overriding any earlier one |
| ClientRepository.Decorate | frontend/assets/classes/Repository.js:24 | same length and order as the server array; element `i` keeps its fields and gets `id == i` |
| ClientRepository.FromBody | frontend/assets/classes/Repository.js:22-24 | a null body gives `[]`; otherwise each element keeps its fields and has its position as `id` |
| ClientRepository.DecoratedIdsDistinct | frontend/assets/classes/Repository.js:23-24 | records at different positions of a fetched list have different ids |
| ClientRepository.DecorateIgnoresStoredIds | frontend/assets/classes/Repository.js:24 | stored `id` values never affect what is fetched |
| ClientRepository.DecorateIdempotent | frontend/assets/classes/Repository.js:24 | decorating an already decorated list changes nothing |
| ClientRepository.DecorateAppend | frontend/assets/classes/Repository.js:34-39 | after an append, the new record is fetched last with id `length - 1`, and the earlier records keep their ids |
| ClientRepository.DecorateAfterDelete | frontend/assets/classes/Repository.js:52-58 | after deleting position `k`, records before `k` keep their ids and every later record's id drops by one |
| ClientRepository.DecorateAfterUpdate | frontend/assets/classes/Repository.js:42-50 | writing a record back at position `k` changes only position `k` of the next fetch, and it keeps id `k` |
| ClientRepository.FindById | frontend/assets/classes/MealPlannerApp.js:214 | `find` returns the first listed record with that id, and finds nothing exactly when no record has it |
| ClientRepository.FindByIdDecorated | frontend/assets/classes/MealPlannerApp.js:213-214 | in a fetched list, finding by id is indexing by position; an out-of-range id finds nothing |
| ClientRepository.Repository.constructor | frontend/assets/classes/Repository.js:4-7 | the key is kept and the endpoint equals the key |
| ClientRepository.Repository.GetAll | frontend/assets/classes/Repository.js:19-25 | an ok response gives the decorated server array; a non-ok one throws `Failed to fetch` and returns nothing |
| ClientRepository.Repository.Add | frontend/assets/classes/Repository.js:27-40 | an ok POST appends the created entity to the server array and returns it with id = last position; a non-ok one throws and changes nothing |
| ClientRepository.Repository.Update | frontend/assets/classes/Repository.js:42-50 | an ok PUT replaces the server element at position `id` with the sent record; a non-ok one throws and changes nothing |
| ClientRepository.Repository.Delete | frontend/assets/classes/Repository.js:52-58 | an ok DELETE removes the server element at position `id`, shifting later ones left; a non-ok one throws and changes nothing |
| Seqs.Filter | frontend/assets/classes/MealPlannerApp.js:117 | `filter` keeps exactly the elements that pass the test |
| Seqs.FilterConcat | frontend/assets/classes/MealPlannerApp.js:117 | filtering keeps order: it distributes over concatenation |
| Seqs.FilterKeepsAll | frontend/assets/classes/MealPlannerApp.js:117 | a list whose every element passes is kept whole |
| Seqs.FilterKeepsNone | frontend/assets/classes/MealPlannerApp.js:117 | a list none of whose elements passes filters to `[]` |
| Seqs.FilterSingle | frontend/assets/classes/MealPlannerApp.js:324 | a one-element list is kept when its element passes and filtered to `[]` otherwise |
| Seqs.Map | frontend/assets/classes/MealPlannerApp.js:324 | `map` keeps the length and applies the function to each element in place |
| Seqs.MapConcat | frontend/assets/classes/MealPlannerApp.js:324 | mapping keeps order: it distributes over concatenation |
| Text.Trim | frontend/assets/classes/MealPlannerApp.js:322 | `trim()` is never longer than its input, and neither end of a non-empty result is white space |
| Text.TrimStart | frontend/assets/classes/MealPlannerApp.js:322 | the result is a suffix of the input, everything cut off is white space, and it does not start with white space |
| Text.TrimEnd | frontend/assets/classes/MealPlannerApp.js:322 | the result is a prefix of the input, everything cut off is white space, and it does not end with white space |
| Text.TrimStartStep | frontend/assets/classes/MealPlannerApp.js:322 | dropping one leading space keeps the suffix-and-white-space property of the rest |
| Text.TrimEndStep | frontend/assets/classes/MealPlannerApp.js:322 | dropping one trailing space keeps the prefix-and-white-space property of the rest |
| Text.TrimOffset | frontend/assets/classes/MealPlannerApp.js:322 | the number of leading characters `trim()` cuts off is at most the length |
| Text.SliceAssembly | frontend/assets/classes/MealPlannerApp.js:322 | a white-space prefix cut, then a white-space suffix cut, leaves one contiguous slice |
| Text.SuffixSlices | frontend/assets/classes/MealPlannerApp.js:322 | a slice of a suffix is a slice of the whole text at the shifted position |
| Text.TrimIsSlice | frontend/assets/classes/MealPlannerApp.js:322 | the trimmed text is the slice of the input starting at `TrimOffset`, and only white space is cut off on both sides |
| Text.TrimAllSpace | frontend/assets/classes/MealPlannerApp.js:322 | an input made only of white space trims to `''` |
| Text.Split | frontend/assets/classes/MealPlannerApp.js:324 | `split(',')` gives at least one piece |
| Text.SplitPiecesFree | frontend/assets/classes/MealPlannerApp.js:324 | no piece of a split contains the separator |
| Text.JoinSplit | frontend/assets/classes/MealPlannerApp.js:324 | joining the pieces with the separator gives back the input |
| Text.JoinCons | frontend/assets/classes/MealPlannerApp.js:324 | one character in front of the pieces, either as a new empty piece before a separator or at the start of the first piece, joins to that character in front of the joined text |
| Text.SplitJoin | frontend/assets/classes/MealPlannerApp.js:324 | splitting a join of separator-free pieces gives back the pieces |
| Text.SplitJoinStep | frontend/assets/classes/MealPlannerApp.js:324 | a separator-free first part in front of parts that round-trip also round-trips |
| Text.SplitPlain | frontend/assets/classes/MealPlannerApp.js:324 | a text without the separator splits into itself alone |
| Text.SplitCons | frontend/assets/classes/MealPlannerApp.js:324 | the first character either ends the first piece (a separator) or starts it |
| Text.SplitConcat | frontend/assets/classes/MealPlannerApp.js:324 | a separator splits the texts on its two sides independently |
| Text.ConsPiecesConcat | frontend/assets/classes/MealPlannerApp.js:324 | adding a first character to the pieces commutes with appending further pieces |
| Text.Lower | frontend/assets/classes/MealPlannerApp.js:280 | `toLowerCase` keeps the length and lowers each character |
| Text.Includes | frontend/assets/classes/MealPlannerApp.js:281 | `hay.includes(needle)` holds exactly when the needle occurs at some position of the hay |
| Text.IncludesEmpty | frontend/assets/classes/MealPlannerApp.js:281 | every text includes `''` |
| Tags.Literals | frontend/assets/classes/MealPlannerApp.js:340-342 | each predefined name becomes, in order, a tag of the given type |
| Tags.IngredientTags | frontend/assets/classes/MealPlannerApp.js:344 | the tags of the ingredients, in repository order |
| Tags.AllTags | frontend/assets/classes/MealPlannerApp.js:340-346 | in order: the 4 diet, 6 meal and 3 nutrition tags, each ingredient's tag, then every remote tag, deleted ones included |
| Tags.OfType | frontend/assets/classes/MealPlannerApp.js:117 | the view keeps exactly the tags of the requested type that are not deleted |
| Tags.OfTypeConcat | frontend/assets/classes/MealPlannerApp.js:117 | the per-type view preserves order |
| Tags.DeletedRemoteTagHidden | frontend/assets/classes/MealPlannerApp.js:117 | a soft-deleted remote tag is aggregated but never shown in a per-type view |
| Tags.ActiveRemoteTagShown | frontend/assets/classes/MealPlannerApp.js:117 | a remote tag that is not deleted is shown in the view of its type |
| Tags.SoftDeletedDietTagGone | frontend/assets/classes/MealPlannerApp.js:117 | once every remote diet tag with a name is soft-deleted, the diet view shows no tag with that name unless it is predefined |
| Tags.LiteralsOfType | frontend/assets/classes/MealPlannerApp.js:340-342 | a run of predefined tags is kept whole by the view of its type and dropped by every other view |
| Tags.IngredientTagsOfType | frontend/assets/classes/MealPlannerApp.js:344 | ingredient-derived tags appear in no view other than `ingredient` |
| Tags.AllTagsOfType | frontend/assets/classes/MealPlannerApp.js:244 | a type's view of the aggregate is its predefined tags, then its ingredient tags, then its active remote tags |
| Tags.OfTypeFiveParts | frontend/assets/classes/MealPlannerApp.js:117 | the view of five concatenated parts is the five views in the same order |
| Tags.OnlyFirstAndLastShown | frontend/assets/classes/MealPlannerApp.js:117 | when the view keeps the first part whole and drops the middle three, only the first part and the view of the last remain |
| Tags.DietView | frontend/assets/classes/MealPlannerApp.js:244 | the diet view is the four predefined diet tags followed by the active remote diet tags |
| Tags.RemoteOnlyView | frontend/assets/classes/MealPlannerApp.js:234-244 | the views of types without predefined tags (`allergy`, `macronutrient`, `custom`) show only the active remote tags of that type |
| Tags.TypeMap | frontend/assets/classes/MealPlannerApp.js:326 | the map has at most one key per aggregated tag (later tags overwrite earlier ones; see the two lemmas below) |
| Tags.TypeMapKeys | frontend/assets/classes/MealPlannerApp.js:326 | the map's keys are exactly the lower-cased tag names |
| Tags.TypeMapLastWins | frontend/assets/classes/MealPlannerApp.js:326 | a key maps to the type of the last tag with that lower-cased name |
| Tags.InferType | frontend/assets/classes/MealPlannerApp.js:327 | the inferred type is never empty |
| Tags.InferTypeOf | frontend/assets/classes/MealPlannerApp.js:326-327 | a name matching no tag gets `custom`; otherwise it gets the type of the last case-insensitive match, or `custom` when that type is empty |
| Tags.InferTypeIgnoresCase | frontend/assets/classes/MealPlannerApp.js:327 | names that differ only in case get the same type |
| Tags.TrimAll | frontend/assets/classes/MealPlannerApp.js:324 | every piece is trimmed, in order |
| Tags.TrimAllConcat | frontend/assets/classes/MealPlannerApp.js:324 | trimming piece by piece distributes over concatenation |
| Tags.ParseTagInput | frontend/assets/classes/MealPlannerApp.js:324 | every parsed name is non-empty, has no comma and no surrounding white space |
| Tags.TrimmedPiecesAreNames | frontend/assets/classes/MealPlannerApp.js:324 | every non-empty trimmed piece of a comma split is a well-formed name |
| Tags.TrimKeepsOut | frontend/assets/classes/MealPlannerApp.js:324 | trimming adds no character |
| Tags.ParseSinglePiece | frontend/assets/classes/MealPlannerApp.js:324 | input without a comma gives its trimmed self, or nothing when that is empty |
| Tags.ParseConcat | frontend/assets/classes/MealPlannerApp.js:324 | the names on either side of a comma are parsed independently and kept in order |
| Tags.TypedTags | frontend/assets/classes/MealPlannerApp.js:327 | each parsed name becomes, in order, a tag with that name and its inferred type |
| Search.SomeTagMatches | frontend/assets/classes/MealPlannerApp.js:281 | `some` holds exactly when some tag's lower-cased name includes the filter |
| Search.FilterRecipes | frontend/assets/classes/MealPlannerApp.js:278-282 | an empty filter shows every recipe; otherwise exactly the recipes whose lower-cased name or some lower-cased tag name includes the lower-cased filter |
| Search.RecipeMatchesOccurs | frontend/assets/classes/MealPlannerApp.js:280-281 | a recipe matches exactly when the lower-cased filter occurs in its lower-cased name or in a lower-cased tag name |
| Search.FilterRecipesConcat | frontend/assets/classes/MealPlannerApp.js:281 | the search preserves the recipes' order |
| Search.FilterRecipesIgnoresCase | frontend/assets/classes/MealPlannerApp.js:279-281 | searches that differ only in case show the same recipes, the empty search included |
| Search.NameSearchFinds | frontend/assets/classes/MealPlannerApp.js:281 | a recipe whose lower-cased name contains the lower-cased filter is always shown |
| Forms.RecipeForm | frontend/assets/classes/MealPlannerApp.js:322-331 | saving is refused exactly when the trimmed name is empty or no tag is parsed; otherwise the recipe has the trimmed name and instructions, no ingredients, and the parsed tags with inferred types |
| Forms.TagForm | frontend/assets/classes/MealPlannerApp.js:161-167 | refused exactly when the trimmed name is empty; otherwise `{ name, type, deleted: false }` |
| Forms.IngredientForm | frontend/assets/classes/MealPlannerApp.js:462-469 | refused exactly when the trimmed name is empty; otherwise a tagged ingredient whose stock is the parsed number, or 0 for NaN |
| Forms.CalendarForm | frontend/assets/classes/MealPlannerApp.js:526-532 | refused exactly when date or recipe is empty; otherwise the recipe name lands in `mealType` and `recipeName` is absent |
| Forms.ListTitle | frontend/assets/classes/MealPlannerApp.js:498 | the title is the entry's `recipeName`, or `undefined` when absent |
| Forms.ListTitles | frontend/assets/classes/MealPlannerApp.js:495-502 | one title per fetched entry, in order, each the entry's `recipeName` or `undefined` |
| Forms.PlannedMealTitleUndefined | frontend/assets/classes/MealPlannerApp.js:532 | the entry the plan-meal form sends has no `recipeName`, so its card title would be `undefined` |
| Forms.AdjustedStock | frontend/assets/classes/MealPlannerApp.js:417-418 | the new stock is `max(0, stock + delta)` |
| Forms.SetStockAccepted | frontend/assets/classes/MealPlannerApp.js:426 | the set-stock input is refused exactly when it is NaN or negative |
| Controller.FindActiveTag | frontend/assets/classes/MealPlannerApp.js:176 | returns the first listed tag with that id that is not deleted, and finds nothing exactly when there is none |
| Controller.FindActiveTagDecorated | frontend/assets/classes/MealPlannerApp.js:175-176 | in a fetched list, the active tag with id `k` is the one at position `k`, if that one is not deleted |
| Controller.FindForManage | frontend/assets/classes/MealPlannerApp.js:389-390 | the ingredient found by id when there is one; else the one at that index when it is in range; nothing exactly when both lookups fail |
| Controller.FindForManageDecorated | frontend/assets/classes/MealPlannerApp.js:387-390 | in a fetched list, the lookup is by position |
| Controller.MealPlannerApp.constructor | frontend/assets/classes/MealPlannerApp.js:12-16 | binds the four collection proxies, built for the keys `ingredients`, `recipes`, `tags` and `calendar`, and each then talks to the endpoint of that name |
| Controller.MealPlannerApp.GetAllTags | frontend/assets/classes/MealPlannerApp.js:338-347 | with both fetches ok, the aggregate of the fetched ingredients and remote tags; otherwise the first failed fetch's error |
| Controller.MealPlannerApp.TagsOfType | frontend/assets/classes/MealPlannerApp.js:116-117 | the per-type view of the aggregate, or an error when a fetch fails |
| Controller.MealPlannerApp.RecipesList | frontend/assets/classes/MealPlannerApp.js:274-282 | the search applied to the fetched recipes, or the fetch error |
| Controller.MealPlannerApp.SaveRecipe | frontend/assets/classes/MealPlannerApp.js:321-334 | an invalid form is refused with its alert and changes nothing; otherwise exactly the built recipe is POSTed once |
| Controller.MealPlannerApp.SaveTag | frontend/assets/classes/MealPlannerApp.js:160-169 | an empty trimmed name is refused and changes nothing; otherwise `{ name, type, deleted: false }` is POSTed once |
| Controller.MealPlannerApp.SaveIngredient | frontend/assets/classes/MealPlannerApp.js:461-471 | an empty trimmed name is refused and changes nothing; otherwise the built ingredient is POSTed once |
| Controller.MealPlannerApp.SaveCalendarEntry | frontend/assets/classes/MealPlannerApp.js:525-534 | a missing date or recipe is refused and changes nothing; otherwise the two-argument entry is POSTed once |
| Controller.MealPlannerApp.CalendarTitles | frontend/assets/classes/MealPlannerApp.js:487-503 | with an ok fetch, one card title per stored entry, in order; otherwise the fetch error |
| Controller.MealPlannerApp.PlannedMealListedUndefined | frontend/assets/classes/MealPlannerApp.js:487-534 | when the backend keeps an absent `recipeName` absent, a meal planned from the form and then listed adds one card, the last, titled `undefined` |
| Controller.MealPlannerApp.RenameTag | frontend/assets/classes/MealPlannerApp.js:173-208 | an empty name is refused first, then a missing or deleted tag; otherwise the tag at position `tagId` is rewritten with only its name changed, and nothing else changes |
| Controller.MealPlannerApp.SoftDeleteTag | frontend/assets/classes/MealPlannerApp.js:212-227 | an id with no tag is refused; otherwise the tag at position `tagId` is rewritten with only `deleted` set to true, and nothing else changes |
| Controller.MealPlannerApp.ShowManageIngredient | frontend/assets/classes/MealPlannerApp.js:386-390 | the form opens exactly when the fetch is ok and the index is in range, on the fetched ingredient at that position |
| Controller.ManageIngredientModal.constructor | frontend/assets/classes/MealPlannerApp.js:389-390 | the form holds the found ingredient and the position it writes back to is in range |
| Controller.ManageIngredientModal.IdToUse | frontend/assets/classes/MealPlannerApp.js:420-431 | the write-back position is the ingredient's own `id` when it has one, else the index the form was opened with |
| Controller.ManageIngredientModal.AddRemoveStock | frontend/assets/classes/MealPlannerApp.js:411-423 | NaN is refused and changes nothing; otherwise the stock becomes `max(0, stock + delta)` in place and the ingredient is written back at its id; a failed write keeps the local change |
| Controller.ManageIngredientModal.SetStock | frontend/assets/classes/MealPlannerApp.js:424-434 | NaN or a negative value is refused and changes nothing; otherwise the stock is set exactly in place and written back at its id; a failed write keeps the local change |

## Left out

- HTTP transport, Express routing, CORS and `listen`. A response is reduced to an ok flag and a value.
- `fs` calls and JSON text. The file is a ghost `Disk` value, and serialisation is not modelled. A failing `writeFileSync` inside `_save` (an exception) is not modelled.
- A file holding valid JSON that is not an array. `_load` returns whatever `JSON.parse` gives, so such a file would be loaded as that value. This is not modelled: `Disk` has no case for it.
- Out-of-range indices. The JavaScript quirks are not modelled: assigning past the end leaves holes, `splice` with a negative index counts from the end, and `parseInt` NaN removes element 0. The stores and proxies require an in-range position instead.
- `parseInt` itself. Number inputs arrive already parsed, with `None` standing for NaN.
- JSON numbers are integers. Floating point is not modelled.
- Unicode case folding. `toLowerCase` lowers ASCII letters only.
- Concurrency and the interleaving of `async` calls. The model has a single writer and runs sequentially.
- DOM rendering, Bootstrap modals, event listeners, the settings and language switch (`t`, `currentLang`, `updateStaticText`) and the undefined `TAG_COLORS`.
- The edit and delete buttons that `renderTagsList` shows only for remote tags matching a listed tag's name and type. This is markup choice, and the handlers themselves are modelled.
- The backend `Ingredient`, `CalendarEntry` and `Tag` classes are not part of this model. They are abstract constructor functions.
- `frontend/assets/app.js`, which only constructs the app.
- Stored records are typed. Every stored ingredient is assumed to carry a `tag`, and every recipe a tag sequence, so `(r.tags || [])` needs no case of its own.
- ClientRepository.MapKey: inherited object keys such as `constructor` or `toString` would make `map[key]` a function. This is not modelled; every key maps to itself.
- ClientRepository.Repository.Add: the second fetch inside `add` is assumed to succeed, and no other writer is assumed to intervene. The source does not check that response's `ok`.
- ClientRepository.Repository.GetAll: `getAll` returns a fresh decorated copy. The backend's own `getAll`, which returns its live array, is modelled as a value.
- Controller.MealPlannerApp.ShowManageIngredient: when the form fails to open, the source throws a `TypeError` while reading `ingredient.name`. The model returns no form instead.
- Controller.MealPlannerApp.constructor: the app receives its four proxies instead of creating them, because each proxy is bound to a backend store. It requires the keys the source passes.
- Controller.MealPlannerApp.PlannedMealListedUndefined: the backend `CalendarEntry` constructor is not part of this model. The method requires that it keeps an absent `recipeName` absent.
- Controller.MealPlannerApp.CalendarTitles: the `No planned meals.` paragraph for an empty list and the missing-container early return are markup. The model returns the empty title list.
