/**
 * Tag logic of the view controller (frontend/assets/classes/MealPlannerApp.js): the aggregated
 * tag list of `getAllTags`, the per-type views, and the parsing and typing of typed-in tags.
 */
module Tags {
  import opened Wrappers
  import opened Entities
  import opened ClientRepository
  import Text
  import Seqs

  const DietNames: seq<string> := ["vegan", "pescatarian", "carnivore", "vegetarian"]
  const MealNames: seq<string> := ["breakfast", "brunch", "lunch", "dinner", "snack", "whole meal"]
  const NutritionNames: seq<string> := ["high protein", "carbohydrates", "fat"]

  /** A tag record without an `id`: a literal tag, or the tag an ingredient carries. */
  function Plain(t: TagValue): Record<TagValue> {
    Record(t, None)
  }

  /** The literal tags of one type: one tag per name, in the given order, none of them deleted. */
  function Literals(names: seq<string>, tagType: string): (r: seq<Record<TagValue>>)
    ensures |r| == |names|
    ensures forall i :: 0 <= i < |r| ==> r[i] == Plain(TagValue(names[i], tagType, false))
  {
    seq(|names|, i requires 0 <= i < |names| => Plain(TagValue(names[i], tagType, false)))
  }

  /** The tag each ingredient carries, in repository order, as a record without an `id`. */
  function IngredientTags(ingredients: seq<Record<Ingredient>>): (r: seq<Record<TagValue>>)
    ensures |r| == |ingredients|
    ensures forall i :: 0 <= i < |r| ==> r[i] == Plain(ingredients[i].body.tag)
  {
    seq(|ingredients|, i requires 0 <= i < |ingredients| => Plain(ingredients[i].body.tag))
  }

  /**
   * `getAllTags` on the two fetched lists: the 13 predefined tags, then each ingredient's tag in
   * repository order, then every remote tag, soft-deleted ones included.
   */
  function AllTags(ingredients: seq<Record<Ingredient>>, remote: seq<Record<TagValue>>): (r: seq<Record<TagValue>>)
    ensures |r| == 13 + |ingredients| + |remote|
    ensures forall i :: 0 <= i < 4 ==> r[i] == Plain(TagValue(DietNames[i], "diet", false))
    ensures forall i :: 0 <= i < 6 ==> r[4 + i] == Plain(TagValue(MealNames[i], "meal", false))
    ensures forall i :: 0 <= i < 3 ==> r[10 + i] == Plain(TagValue(NutritionNames[i], "nutrition", false))
    ensures forall i :: 0 <= i < |ingredients| ==> r[13 + i] == Plain(ingredients[i].body.tag)
    ensures forall j :: 0 <= j < |remote| ==> r[13 + |ingredients| + j] == remote[j]
  {
    Literals(DietNames, "diet") + Literals(MealNames, "meal") + Literals(NutritionNames, "nutrition")
    + IngredientTags(ingredients) + remote
  }

  /** A tag shown in the view of a type: it has that type and is not soft-deleted. */
  predicate Listed(t: Record<TagValue>, tagType: string) {
    t.body.tagType == tagType && !t.body.deleted
  }

  /** The per-type view: the tags of that type that are not soft-deleted, in their order. */
  function OfType(tags: seq<Record<TagValue>>, tagType: string): (r: seq<Record<TagValue>>)
    ensures |r| <= |tags|
    ensures forall i :: 0 <= i < |r| ==> r[i] in tags && r[i].body.tagType == tagType && !r[i].body.deleted
    ensures forall i :: 0 <= i < |tags| && Listed(tags[i], tagType) ==> tags[i] in r
  {
    Seqs.Filter(tags, (t: Record<TagValue>) => Listed(t, tagType))
  }

  /** The per-type view of a concatenation keeps the order of the two parts. */
  lemma OfTypeConcat(a: seq<Record<TagValue>>, b: seq<Record<TagValue>>, tagType: string)
    ensures OfType(a + b, tagType) == OfType(a, tagType) + OfType(b, tagType)
  {
    Seqs.FilterConcat(a, b, (t: Record<TagValue>) => Listed(t, tagType));
  }

  /** A remote tag that is soft-deleted is aggregated but never shown in a per-type view. */
  lemma DeletedRemoteTagHidden(ingredients: seq<Record<Ingredient>>, remote: seq<Record<TagValue>>, j: int, tagType: string)
    requires 0 <= j < |remote| && remote[j].body.deleted
    ensures remote[j] in AllTags(ingredients, remote)
    ensures remote[j] !in OfType(AllTags(ingredients, remote), tagType)
  {
    assert AllTags(ingredients, remote)[13 + |ingredients| + j] == remote[j];
  }

  /** A remote tag that is not deleted is shown in the view of its own type. */
  lemma ActiveRemoteTagShown(ingredients: seq<Record<Ingredient>>, remote: seq<Record<TagValue>>, j: int)
    requires 0 <= j < |remote| && !remote[j].body.deleted
    ensures remote[j] in OfType(AllTags(ingredients, remote), remote[j].body.tagType)
  {
    var all := AllTags(ingredients, remote);
    assert all[13 + |ingredients| + j] == remote[j];
  }

  /**
   * The soft-delete scenario: with ingredients whose tags are derived from their names, once the
   * only remote tag named `name` of type `diet` is soft-deleted, the diet view shows no tag so named
   * unless it is one of the predefined diet tags.
   */
  lemma {:induction false} SoftDeletedDietTagGone(ingredients: seq<Record<Ingredient>>, remote: seq<Record<TagValue>>, name: string)
    requires name !in DietNames
    requires forall i :: 0 <= i < |ingredients| ==> TagDerived(ingredients[i].body)
    requires forall j :: 0 <= j < |remote| && remote[j].body.name == name && remote[j].body.tagType == "diet"
               ==> remote[j].body.deleted
    ensures forall t :: t in OfType(AllTags(ingredients, remote), "diet") ==> t.body.name != name
  {
    DietView(ingredients, remote);
    var literals, shown := Literals(DietNames, "diet"), OfType(remote, "diet");
    forall t: Record<TagValue> | t in literals + shown ensures t.body.name != name {
      if t in literals {
        var k :| 0 <= k < |literals| && literals[k] == t;
        assert t.body.name == DietNames[k];
      }
    }
  }

  /**
   * The map from lower-cased tag name to tag type, built by inserting the tags in order, so
   * that a later tag overwrites an earlier one of the same lower-cased name.
   */
  function TypeMap(tags: seq<Record<TagValue>>): (m: map<string, string>)
    ensures |m| <= |tags|
  {
    if tags == [] then map[]
    else
      var last := tags[|tags| - 1];
      TypeMap(tags[..|tags| - 1])[Text.Lower(last.body.name) := last.body.tagType]
  }

  /** A run of literal tags of one type is kept whole by the view of that type and dropped by any other. */
  lemma LiteralsOfType(names: seq<string>, t: string, tagType: string)
    ensures OfType(Literals(names, t), tagType) == if t == tagType then Literals(names, t) else []
  {
    var keep := (x: Record<TagValue>) => Listed(x, tagType);
    if t == tagType {
      Seqs.FilterKeepsAll(Literals(names, t), keep);
    } else {
      Seqs.FilterKeepsNone(Literals(names, t), keep);
    }
  }

  /** Tags derived from ingredient names appear in no view but the `ingredient` one. */
  lemma IngredientTagsOfType(ingredients: seq<Record<Ingredient>>, tagType: string)
    requires tagType != "ingredient"
    requires forall i :: 0 <= i < |ingredients| ==> TagDerived(ingredients[i].body)
    ensures OfType(IngredientTags(ingredients), tagType) == []
  {
    var tags := IngredientTags(ingredients);
    assert forall i :: 0 <= i < |tags| ==> tags[i].body == ingredients[i].body.tag;
    Seqs.FilterKeepsNone(tags, (x: Record<TagValue>) => Listed(x, tagType));
  }

  /**
   * The per-type view of the aggregate, part by part: the predefined tags of that type, then the
   * ingredient tags of that type, then the remote tags of that type that are not deleted.
   */
  lemma {:induction false} AllTagsOfType(ingredients: seq<Record<Ingredient>>, remote: seq<Record<TagValue>>, tagType: string)
    ensures OfType(AllTags(ingredients, remote), tagType) ==
              (if tagType == "diet" then Literals(DietNames, "diet") else [])
              + (if tagType == "meal" then Literals(MealNames, "meal") else [])
              + (if tagType == "nutrition" then Literals(NutritionNames, "nutrition") else [])
              + OfType(IngredientTags(ingredients), tagType) + OfType(remote, tagType)
  {
    var d, m, n := Literals(DietNames, "diet"), Literals(MealNames, "meal"), Literals(NutritionNames, "nutrition");
    var it := IngredientTags(ingredients);
    calc {
      OfType(AllTags(ingredients, remote), tagType);
      OfType(d + m + n + it + remote, tagType);
      { OfTypeFiveParts(d, m, n, it, remote, tagType); }
      OfType(d, tagType) + OfType(m, tagType) + OfType(n, tagType) + OfType(it, tagType) + OfType(remote, tagType);
      { LiteralsOfType(DietNames, "diet", tagType);
        LiteralsOfType(MealNames, "meal", tagType);
        LiteralsOfType(NutritionNames, "nutrition", tagType); }
      (if tagType == "diet" then d else []) + (if tagType == "meal" then m else [])
      + (if tagType == "nutrition" then n else []) + OfType(it, tagType) + OfType(remote, tagType);
    }
  }

  /** The per-type view of five concatenated parts is the five views in the same order. */
  lemma OfTypeFiveParts(d: seq<Record<TagValue>>, m: seq<Record<TagValue>>, n: seq<Record<TagValue>>,
                        it: seq<Record<TagValue>>, remote: seq<Record<TagValue>>, tagType: string)
    ensures OfType(d + m + n + it + remote, tagType) ==
              OfType(d, tagType) + OfType(m, tagType) + OfType(n, tagType) + OfType(it, tagType) + OfType(remote, tagType)
  {
    OfTypeConcat(d + m + n + it, remote, tagType);
    OfTypeConcat(d + m + n, it, tagType);
    OfTypeConcat(d + m, n, tagType);
    OfTypeConcat(d, m, tagType);
  }

  /** The diet view: the four predefined diet tags, then the remote diet tags not deleted. */
  lemma {:induction false} DietView(ingredients: seq<Record<Ingredient>>, remote: seq<Record<TagValue>>)
    requires forall i :: 0 <= i < |ingredients| ==> TagDerived(ingredients[i].body)
    ensures OfType(AllTags(ingredients, remote), "diet") == Literals(DietNames, "diet") + OfType(remote, "diet")
  {
    var d, m, n := Literals(DietNames, "diet"), Literals(MealNames, "meal"), Literals(NutritionNames, "nutrition");
    var it := IngredientTags(ingredients);
    assert AllTags(ingredients, remote) == d + m + n + it + remote;
    LiteralsOfType(DietNames, "diet", "diet");
    LiteralsOfType(MealNames, "meal", "diet");
    LiteralsOfType(NutritionNames, "nutrition", "diet");
    IngredientTagsOfType(ingredients, "diet");
    OnlyFirstAndLastShown(d, m, n, it, remote, "diet");
  }

  /** When the view keeps the first part whole and drops the middle three, only the first and the last remain. */
  lemma OnlyFirstAndLastShown(d: seq<Record<TagValue>>, m: seq<Record<TagValue>>, n: seq<Record<TagValue>>,
                              it: seq<Record<TagValue>>, remote: seq<Record<TagValue>>, tagType: string)
    requires OfType(d, tagType) == d
    requires OfType(m, tagType) == [] && OfType(n, tagType) == [] && OfType(it, tagType) == []
    ensures OfType(d + m + n + it + remote, tagType) == d + OfType(remote, tagType)
  {
    var shown := OfType(remote, tagType);
    calc {
      OfType(d + m + n + it + remote, tagType);
      { OfTypeFiveParts(d, m, n, it, remote, tagType); }
      OfType(d, tagType) + OfType(m, tagType) + OfType(n, tagType) + OfType(it, tagType) + shown;
      d + [] + [] + [] + shown;
      { assert d + [] + [] + [] == d; }
      d + shown;
    }
  }

  /**
   * The views of types that have no predefined tags (`allergy`, `macronutrient`, `custom`, ...)
   * show only remote tags.
   */
  lemma {:induction false} RemoteOnlyView(ingredients: seq<Record<Ingredient>>, remote: seq<Record<TagValue>>, tagType: string)
    requires tagType != "diet" && tagType != "meal" && tagType != "nutrition" && tagType != "ingredient"
    requires forall i :: 0 <= i < |ingredients| ==> TagDerived(ingredients[i].body)
    ensures OfType(AllTags(ingredients, remote), tagType) == OfType(remote, tagType)
  {
    var shown := OfType(remote, tagType);
    calc {
      OfType(AllTags(ingredients, remote), tagType);
      { AllTagsOfType(ingredients, remote, tagType); }
      [] + [] + [] + OfType(IngredientTags(ingredients), tagType) + shown;
      { IngredientTagsOfType(ingredients, tagType); }
      [] + [] + [] + [] + shown;
      { assert [] + [] + [] + [] + shown == shown; }
      shown;
    }
  }

  /** The map's keys are exactly the lower-cased names of the tags. */
  lemma {:induction false} TypeMapKeys(tags: seq<Record<TagValue>>, key: string)
    ensures key in TypeMap(tags) <==> exists i :: 0 <= i < |tags| && Text.Lower(tags[i].body.name) == key
  {
    if tags != [] {
      var prefix := tags[..|tags| - 1];
      TypeMapKeys(prefix, key);
      assert forall i :: 0 <= i < |prefix| ==> prefix[i] == tags[i];
    }
  }

  /** Position `i` holds the last tag whose lower-cased name is `key`. */
  ghost predicate LastMatch(tags: seq<Record<TagValue>>, key: string, i: int) {
    0 <= i < |tags| && Text.Lower(tags[i].body.name) == key
    && forall j :: i < j < |tags| ==> Text.Lower(tags[j].body.name) != key
  }

  /** In the map, a lower-cased name maps to the type of the last tag so named. */
  lemma {:induction false} TypeMapLastWins(tags: seq<Record<TagValue>>, key: string, i: int)
    requires LastMatch(tags, key, i)
    ensures key in TypeMap(tags) && TypeMap(tags)[key] == tags[i].body.tagType
  {
    if i < |tags| - 1 {
      var prefix := tags[..|tags| - 1];
      assert prefix[i] == tags[i];
      assert forall j :: i < j < |prefix| ==> prefix[j] == tags[j];
      TypeMapLastWins(prefix, key, i);
    }
  }

  /** The type the map gives the lower-cased name, or `custom` when it gives none or an empty one. */
  function InferType(m: map<string, string>, name: string): (t: string)
    ensures t != ""
  {
    var key := Text.Lower(name);
    if key in m && m[key] != "" then m[key] else "custom"
  }

  /**
   * The inferred type of a typed-in name: the type of the last aggregated tag with the same
   * lower-cased name, or `custom` when there is none or that type is empty.
   */
  lemma {:induction false} InferTypeOf(tags: seq<Record<TagValue>>, name: string)
    ensures (forall i :: 0 <= i < |tags| ==> Text.Lower(tags[i].body.name) != Text.Lower(name))
              ==> InferType(TypeMap(tags), name) == "custom"
    ensures forall i :: LastMatch(tags, Text.Lower(name), i) ==>
              InferType(TypeMap(tags), name) == if tags[i].body.tagType != "" then tags[i].body.tagType else "custom"
  {
    TypeMapKeys(tags, Text.Lower(name));
    forall i | LastMatch(tags, Text.Lower(name), i)
      ensures InferType(TypeMap(tags), name) == if tags[i].body.tagType != "" then tags[i].body.tagType else "custom"
    {
      TypeMapLastWins(tags, Text.Lower(name), i);
    }
  }

  /** Names that differ only in letter case get the same type. */
  lemma InferTypeIgnoresCase(m: map<string, string>, a: string, b: string)
    requires Text.Lower(a) == Text.Lower(b)
    ensures InferType(m, a) == InferType(m, b)
  {
  }

  /** Each piece with its surrounding white space removed, in order. */
  function TrimAll(pieces: seq<string>): (r: seq<string>)
    ensures |r| == |pieces|
    ensures forall i :: 0 <= i < |r| ==> r[i] == Text.Trim(pieces[i])
  {
    Seqs.Map(pieces, Text.Trim)
  }

  predicate NonEmpty(s: string) {
    s != ""
  }

  /** A piece of the tag input: non-empty, without commas, without surrounding white space. */
  ghost predicate TagName(s: string) {
    s != "" && ',' !in s && !Text.IsSpace(s[0]) && !Text.IsSpace(s[|s| - 1])
  }

  /** The tag input split on commas, each piece trimmed, and the empty pieces dropped. */
  function ParseTagInput(text: string): (names: seq<string>)
    ensures forall i :: 0 <= i < |names| ==> TagName(names[i])
  {
    var trimmed := TrimAll(Text.Split(text, ','));
    Text.SplitPiecesFree(text, ',');
    TrimmedPiecesAreNames(Text.Split(text, ','));
    Seqs.Filter(trimmed, NonEmpty)
  }

  /** Every non-empty trimmed piece of a split on commas is a well-formed tag name. */
  lemma TrimmedPiecesAreNames(pieces: seq<string>)
    requires forall k :: 0 <= k < |pieces| ==> ',' !in pieces[k]
    ensures forall k :: 0 <= k < |pieces| && NonEmpty(TrimAll(pieces)[k]) ==> TagName(TrimAll(pieces)[k])
  {
    forall k | 0 <= k < |pieces| && NonEmpty(TrimAll(pieces)[k]) ensures TagName(TrimAll(pieces)[k]) {
      TrimKeepsOut(pieces[k], ',');
    }
  }

  /** Trimming introduces no character. */
  lemma TrimKeepsOut(s: string, c: char)
    requires c !in s
    ensures c !in Text.Trim(s)
  {
    Text.TrimIsSlice(s);
  }

  /** Input without a comma yields its trimmed self, or nothing when that is empty. */
  lemma {:induction false} ParseSinglePiece(text: string)
    requires ',' !in text
    ensures ParseTagInput(text) == if Text.Trim(text) == "" then [] else [Text.Trim(text)]
  {
    Text.SplitPlain(text, ',');
    var t := Text.Trim(text);
    assert TrimAll([text]) == [t];
    Seqs.FilterSingle(t, NonEmpty);
  }

  /** A comma separates the names on its two sides, in order. */
  lemma {:induction false} ParseConcat(a: string, b: string)
    ensures ParseTagInput(a + [','] + b) == ParseTagInput(a) + ParseTagInput(b)
  {
    var pa, pb := Text.Split(a, ','), Text.Split(b, ',');
    Text.SplitConcat(a, b, ',');
    assert Text.Split(a + [','] + b, ',') == pa + pb;
    TrimAllConcat(pa, pb);
    Seqs.FilterConcat(TrimAll(pa), TrimAll(pb), NonEmpty);
  }

  /** Trimming piece by piece distributes over concatenation. */
  lemma TrimAllConcat(p: seq<string>, q: seq<string>)
    ensures TrimAll(p + q) == TrimAll(p) + TrimAll(q)
  {
    Seqs.MapConcat(p, q, Text.Trim);
  }

  /** Each typed-in name as a new tag of its inferred type, in order. */
  function TypedTags(m: map<string, string>, names: seq<string>): (tags: seq<TagValue>)
    ensures |tags| == |names|
    ensures forall i :: 0 <= i < |names| ==> tags[i] == TagValue(names[i], InferType(m, names[i]), false)
  {
    seq(|names|, i requires 0 <= i < |names| => TagValue(names[i], InferType(m, names[i]), false))
  }
}
