/**
  The request-shaped rules of backend/api/serializers.py: the duplicate check
  and the writes of `RecipeSerializer.create`, the conditional replacement of
  `RecipeSerializer.update`, the `recipes_limit` truncation of
  `SubscriptionSerializer.get_recipes` and the guard of
  `UserSerializer.get_is_subscribed`.
*/
module Serializers {
  import opened Common
  import opened Decimal

  type UserId = int
  type TagId = int
  type IngredientId = int

  /** One element of the request's `ingredients` list: {"id": ..., "amount": ...}. */
  datatype IngredientRequest = IngredientRequest(id: IngredientId, amount: int)

  /** A RecipeIngredients row attached to a recipe. */
  datatype IngredientRow = IngredientRow(ingredient: IngredientId, amount: int)

  /** What `create` raises. */
  datatype CreateError =
    | DuplicatedIngredient(id: IngredientId, name: string)  // ValidationError 'Ingredient {name} is duplicated!'
    | IngredientNotFound(id: IngredientId)                  // Http404 while looking the duplicate's name up
    | MissingIngredients                                    // TypeError: iterating over None
    | MissingTags                                           // TypeError: tags.set(None), after the recipe was saved

  /** A key of the request body: missing, present with JSON `null`, or present with a value. */
  datatype Field<T> = Absent | Null | Given(value: T)

  /** The TypeError `update` raises when a present key holds `null`. */
  datatype UpdateError = NullTags | NullIngredients

  /** The validated scalar fields of a recipe request. */
  datatype RecipeFields = RecipeFields(name: string, text: string, image: string, cookingTime: int)

  /** The ids of the requested ingredients, in request order. */
  function Ids(data: seq<IngredientRequest>): (ids: seq<IngredientId>)
    ensures |ids| == |data|
    ensures forall i :: 0 <= i < |data| ==> ids[i] == data[i].id
  {
    if data == [] then [] else Ids(data[..|data| - 1]) + [data[|data| - 1].id]
  }

  /** The rows `add_ingredients` creates, one per requested ingredient, in request order. */
  function Rows(data: seq<IngredientRequest>): (rows: seq<IngredientRow>)
    ensures |rows| == |data|
    ensures forall i :: 0 <= i < |data| ==> rows[i] == IngredientRow(data[i].id, data[i].amount)
  {
    if data == [] then [] else Rows(data[..|data| - 1]) + [IngredientRow(data[|data| - 1].id, data[|data| - 1].amount)]
  }

  /** Some id occurs more than once. */
  predicate HasRepeat(ids: seq<IngredientId>)
  {
    exists i, j :: 0 <= i < j < |ids| && ids[i] == ids[j]
  }

  /**
    The position of the first repeat in scan order: the earliest position whose
    id already occurred before it.
  */
  function FirstRepeat(ids: seq<IngredientId>): (j: nat)
    requires HasRepeat(ids)
    ensures j < |ids| && ids[j] in ids[..j] && !HasRepeat(ids[..j])
  {
    var prefix := ids[..|ids| - 1];
    if HasRepeat(prefix) then
      var j := FirstRepeat(prefix);
      assert ids[..j] == prefix[..j];
      j
    else
      var a, b :| 0 <= a < b < |ids| && ids[a] == ids[b];
      assert b == |ids| - 1;
      assert ids[..|ids| - 1][a] == ids[a];
      |ids| - 1
  }

  lemma FirstRepeatAt(ids: seq<IngredientId>, i: nat)
    requires i < |ids| && ids[i] in ids[..i] && !HasRepeat(ids[..i])
    ensures HasRepeat(ids) && FirstRepeat(ids) == i
  {
    var a :| 0 <= a < i && ids[a] == ids[i];
    assert HasRepeat(ids);
    var j := FirstRepeat(ids);
    if j < i {
      assert false;
    } else if j > i {
      assert false;
    }
  }

  /**
    The error raised for the first repeated id: a ValidationError naming the
    ingredient, or a 404 when no ingredient has that id.
  */
  function DuplicateError(ids: seq<IngredientId>, names: map<IngredientId, string>): (r: CreateError)
    requires HasRepeat(ids)
    ensures r.DuplicatedIngredient? || r.IngredientNotFound?
    ensures r.DuplicatedIngredient? <==> r.id in names
    ensures r.DuplicatedIngredient? ==> r.name == names[r.id]
    ensures multiset(ids)[r.id] >= 2
  {
    var j := FirstRepeat(ids);
    var id := ids[j];
    assert ids == ids[..j] + ids[j..];
    assert ids[j..] == [id] + ids[j + 1..];
    assert multiset(ids[..j])[id] >= 1;
    if id in names then DuplicatedIngredient(id, names[id]) else IngredientNotFound(id)
  }

  /**
    The loop at the start of `create`: scans the requested ingredients, keeping
    the ids seen so far, and raises at the first id that was already seen.
    It succeeds exactly when no id repeats, and then the accumulated list is the
    request's ids in order; otherwise it reports the first repeat in scan order.
  */
  method CheckIngredients(data: seq<IngredientRequest>, names: map<IngredientId, string>)
    returns (r: Result<seq<IngredientId>, CreateError>)
    ensures r.Success? <==> !HasRepeat(Ids(data))
    ensures r.Success? ==> r.value == Ids(data)
    ensures r.Failure? ==> HasRepeat(Ids(data)) && r.error == DuplicateError(Ids(data), names)
  {
    var seen: seq<IngredientId> := [];
    for i := 0 to |data|
      invariant seen == Ids(data)[..i]
      invariant !HasRepeat(seen)
    {
      var id := data[i].id;
      if id in seen {
        FirstRepeatAt(Ids(data), i);
        if id in names {
          return Failure(DuplicatedIngredient(id, names[id]));
        }
        return Failure(IngredientNotFound(id));
      }
      assert Ids(data)[..i + 1] == seen + [id];
      seen := seen + [id];
    }
    assert Ids(data)[..|data|] == Ids(data);
    return Success(seen);
  }

  /** A recipe and the rows attached to it; `update` changes it in place. */
  class Recipe {
    const author: UserId
    var name: string
    var text: string
    var image: string
    var cookingTime: int
    var tags: set<TagId>
    var ingredients: seq<IngredientRow>

    /** `Recipe.objects.create(**validated_data)`: no tags and no ingredient rows yet. */
    constructor (author: UserId, fields: RecipeFields)
      ensures this.author == author
      ensures name == fields.name && text == fields.text
      ensures image == fields.image && cookingTime == fields.cookingTime
      ensures tags == {} && ingredients == []
    {
      this.author := author;
      name, text := fields.name, fields.text;
      image, cookingTime := fields.image, fields.cookingTime;
      tags, ingredients := {}, [];
    }

    /**
      `update`: the tags are replaced only when the request has a `tags` key and
      the ingredient rows only when it has an `ingredients` key; image and
      cooking time are always taken from the validated data, while name and text
      are left as they were, since the recipe is fetched again and only those
      two fields are assigned before saving. A key whose value is JSON `null`
      still clears the tags (or deletes the rows) and then fails with a
      TypeError when `None` is iterated, before anything else is changed.
    */
    method Update(tagsData: Field<seq<TagId>>, ingredientsData: Field<seq<IngredientRequest>>,
                  fields: RecipeFields) returns (r: Outcome<UpdateError>)
      modifies this
      ensures r == Fail(NullTags) <==> tagsData.Null?
      ensures r == Fail(NullIngredients) <==> !tagsData.Null? && ingredientsData.Null?
      ensures tags == (match tagsData
        case Absent => old(tags)
        case Null => {}
        case Given(value) => set t | t in value)
      ensures ingredients == (if tagsData.Null? then old(ingredients) else match ingredientsData
        case Absent => old(ingredients)
        case Null => []
        case Given(value) => Rows(value))
      ensures r.Pass? ==> image == fields.image && cookingTime == fields.cookingTime
      ensures r.Fail? ==> image == old(image) && cookingTime == old(cookingTime)
      ensures name == old(name) && text == old(text)
    {
      if !tagsData.Absent? {
        tags := {};
        if tagsData.Null? {
          return Fail(NullTags);
        }
        tags := set t | t in tagsData.value;
      }
      if !ingredientsData.Absent? {
        ingredients := [];
        if ingredientsData.Null? {
          return Fail(NullIngredients);
        }
        ingredients := Rows(ingredientsData.value);
      }
      image := fields.image;
      cookingTime := fields.cookingTime;
      r := Pass;
    }
  }

  /** The recipe table. */
  class RecipeStore {
    var recipes: seq<Recipe>

    constructor ()
      ensures recipes == []
    {
      recipes := [];
    }

    /**
      `create`: the duplicate check runs to completion before the recipe is
      saved, so a request with a repeated ingredient id (or without an
      `ingredients` key) saves nothing. Otherwise the recipe is saved, then its
      tags are set and its rows added; without a `tags` key the recipe stays
      saved with no tags and no rows while the call fails. `create` reads both
      keys with `.get`, so a missing key and a `null` value are the same `None`.
    */
    method Create(author: UserId, fields: RecipeFields, tagsData: Option<seq<TagId>>,
                  ingredientsData: Option<seq<IngredientRequest>>, names: map<IngredientId, string>)
      returns (r: Result<Recipe, CreateError>)
      modifies this
      ensures ingredientsData.None? ==> r == Failure(MissingIngredients) && recipes == old(recipes)
      ensures ingredientsData.Some? && HasRepeat(Ids(ingredientsData.value)) ==>
        r == Failure(DuplicateError(Ids(ingredientsData.value), names))
      ensures ingredientsData.Some? && HasRepeat(Ids(ingredientsData.value)) ==> recipes == old(recipes)
      ensures ingredientsData.Some? && !HasRepeat(Ids(ingredientsData.value)) ==>
        && |recipes| == |old(recipes)| + 1
        && recipes[..|old(recipes)|] == old(recipes)
        && fresh(recipes[|old(recipes)|])
        && var recipe := recipes[|old(recipes)|];
        && recipe.author == author && recipe.name == fields.name && recipe.text == fields.text
        && recipe.image == fields.image && recipe.cookingTime == fields.cookingTime
        && (tagsData.Some? ==>
              r == Success(recipe)
              && recipe.tags == (set t | t in tagsData.value)
              && recipe.ingredients == Rows(ingredientsData.value))
        && (tagsData.None? ==> r == Failure(MissingTags) && recipe.tags == {} && recipe.ingredients == [])
    {
      if ingredientsData.None? {
        return Failure(MissingIngredients);
      }
      var checked := CheckIngredients(ingredientsData.value, names);
      if checked.Failure? {
        return Failure(checked.error);
      }
      var recipe := new Recipe(author, fields);
      recipes := recipes + [recipe];
      if tagsData.None? {
        return Failure(MissingTags);
      }
      recipe.tags := set t | t in tagsData.value;
      recipe.ingredients := Rows(ingredientsData.value);
      r := Success(recipe);
    }
  }

  /** What `int(recipes_limit)` or the slice can raise. */
  datatype LimitError = NotAnInteger | NegativeIndexing

  /**
    `get_recipes`: without a `recipes_limit` parameter, or with an empty one,
    every recipe of the author; otherwise the first `int(recipes_limit)` of them.
  */
  function RecipesShown<T>(recipes: seq<T>, recipesLimit: Option<string>): (r: Result<seq<T>, LimitError>)
    ensures r.Success? ==> r.value <= recipes
    ensures recipesLimit.None? || recipesLimit == Some("") ==> r == Success(recipes)
  {
    if recipesLimit.None? || recipesLimit.value == "" then Success(recipes)
    else match ParseInt(recipesLimit.value)
      case None => Failure(NotAnInteger)
      case Some(k) =>
        if k < 0 then Failure(NegativeIndexing)
        else Success(recipes[..if k < |recipes| then k else |recipes|])
  }

  /** A limit of `k` shows the first min(k, count) recipes, in order. */
  lemma RecipesLimitTruncates<T>(recipes: seq<T>, k: nat)
    ensures RecipesShown(recipes, Some(NatToString(k))).Success?
    ensures var shown := RecipesShown(recipes, Some(NatToString(k))).value;
      |shown| == (if k < |recipes| then k else |recipes|) && shown <= recipes
  {
    ParseIntOfNumeral(k);
  }

  /** A negative or non-numeric limit makes the call fail instead of showing anything. */
  lemma RecipesLimitRefused<T>(recipes: seq<T>, k: nat, junk: string)
    requires k > 0 && junk != []
    requires forall i :: 0 <= i < |junk| ==> !IsDigit(junk[i])
    ensures RecipesShown(recipes, Some("-" + NatToString(k))) == Failure(NegativeIndexing)
    ensures RecipesShown(recipes, Some(junk)) == Failure(NotAnInteger)
  {
    ParseIntOfNumeral(k);
    ParseIntRefusesNonNumeric(junk);
  }

  /** The requesting user, as `request.user` gives it. */
  datatype Requester = Anonymous | Authenticated(id: UserId)

  /** A row of the Subscription table: `user` follows `author`. */
  datatype Subscription = Subscription(user: UserId, author: UserId)

  /**
    `get_is_subscribed`: false for an anonymous requester and for the user's
    own profile; otherwise whether the requester follows the viewed user.
  */
  function IsSubscribed(requester: Requester, viewed: UserId, subscriptions: set<Subscription>): (r: bool)
    ensures r <==> requester.Authenticated? && requester.id != viewed
                   && Subscription(requester.id, viewed) in subscriptions
  {
    if requester.Anonymous? || requester.id == viewed then false
    else Subscription(requester.id, viewed) in subscriptions
  }

  /**
    Where the database's own check constraint already forbids following
    oneself, the guard for one's own profile changes no answer.
  */
  lemma SelfGuardRedundantUnderConstraint(u: UserId, viewed: UserId, subscriptions: set<Subscription>)
    requires forall s :: s in subscriptions ==> s.user != s.author
    ensures IsSubscribed(Authenticated(u), viewed, subscriptions) == (Subscription(u, viewed) in subscriptions)
  {
  }
}
