/** The recipe search of the view controller's `renderRecipesList`. */
module Search {
  import opened Entities
  import opened ClientRepository
  import Text
  import Seqs

  /** The lower-cased name contains `f`, which is already lower-cased. */
  predicate NameMatches(name: string, f: string) {
    Text.Includes(Text.Lower(name), f)
  }

  /** Some tag's lower-cased name contains `f`. */
  function SomeTagMatches(tags: seq<TagValue>, f: string): (b: bool)
    ensures b <==> exists i :: 0 <= i < |tags| && NameMatches(tags[i].name, f)
  {
    if tags == [] then false
    else if NameMatches(tags[0].name, f) then true
    else
      assert forall i :: 1 <= i < |tags| ==> tags[i] == tags[1..][i - 1];
      SomeTagMatches(tags[1..], f)
  }

  /** The filter's test on one recipe. */
  predicate RecipeMatches(r: Recipe, f: string) {
    NameMatches(r.name, f) || SomeTagMatches(r.tags, f)
  }

  /**
   * The recipes shown for a search `filter`: all of them when it is empty, otherwise, in order,
   * those whose lower-cased name or some lower-cased tag name contains the lower-cased filter.
   */
  function FilterRecipes(recipes: seq<Record<Recipe>>, filter: string): (r: seq<Record<Recipe>>)
    ensures filter == "" ==> r == recipes
    ensures filter != "" ==> forall i :: 0 <= i < |r| ==>
              r[i] in recipes && RecipeMatches(r[i].body, Text.Lower(filter))
    ensures filter != "" ==> forall i :: 0 <= i < |recipes| && RecipeMatches(recipes[i].body, Text.Lower(filter)) ==>
              recipes[i] in r
  {
    if filter == "" then recipes
    else
      var f := Text.Lower(filter);
      Seqs.Filter(recipes, (x: Record<Recipe>) => RecipeMatches(x.body, f))
  }

  /** Matching in terms of occurrence: the lower-cased filter occurs in the name or in a tag name. */
  lemma RecipeMatchesOccurs(r: Recipe, filter: string)
    ensures RecipeMatches(r, Text.Lower(filter)) <==>
              Text.Occurs(Text.Lower(filter), Text.Lower(r.name))
              || exists i :: 0 <= i < |r.tags| && Text.Occurs(Text.Lower(filter), Text.Lower(r.tags[i].name))
  {
  }

  /** The search keeps the recipes' order: it distributes over concatenation. */
  lemma {:induction false} FilterRecipesConcat(a: seq<Record<Recipe>>, b: seq<Record<Recipe>>, filter: string)
    ensures FilterRecipes(a + b, filter) == FilterRecipes(a, filter) + FilterRecipes(b, filter)
  {
    if filter != "" {
      var f := Text.Lower(filter);
      Seqs.FilterConcat(a, b, (x: Record<Recipe>) => RecipeMatches(x.body, f));
    }
  }

  /** Searches that differ only in letter case show the same recipes. */
  lemma FilterRecipesIgnoresCase(recipes: seq<Record<Recipe>>, a: string, b: string)
    requires Text.Lower(a) == Text.Lower(b)
    ensures FilterRecipes(recipes, a) == FilterRecipes(recipes, b)
  {
  }

  /** Every recipe matches a search whose lower-cased text is part of its lower-cased name. */
  lemma NameSearchFinds(recipes: seq<Record<Recipe>>, i: int, filter: string)
    requires 0 <= i < |recipes| && filter != ""
    requires Text.Occurs(Text.Lower(filter), Text.Lower(recipes[i].body.name))
    ensures recipes[i] in FilterRecipes(recipes, filter)
  {
  }
}
