/**
  The state-changing actions of `RecipeViewSet` (backend/api/views.py): adding
  and removing a recipe in the shopping cart or among the favourites, and the
  shopping-list download that aggregates the cart and lays the list out.
*/
module Views {
  import opened Aggregation
  import opened Layout
  import opened Decimal

  type UserId = int
  type RecipeId = int

  /** A row of the Cart or Favorite table. */
  datatype Link = Link(user: UserId, recipe: RecipeId)

  /** The HTTP methods the two actions accept. */
  datatype Verb = Post | Delete

  /**
    The response status: 200, 400 for a duplicate add, 404 from
    `get_object_or_404`, and 500 for the MultipleObjectsReturned that
    `get_object_or_404` raises when several rows match.
  */
  datatype Status = Ok | BadRequest | NotFound | ServerError

  /** The rows that a lookup by recipe id alone finds. */
  function RowsForRecipe(links: set<Link>, recipe: RecipeId): set<Link>
  {
    set l | l in links && l.recipe == recipe
  }

  /**
    POST: a link the user already has is refused with 400 and nothing changes;
    an unknown recipe gives 404; otherwise exactly the one link is added.
  */
  function PostLink(links: set<Link>, recipes: set<RecipeId>, user: UserId, recipe: RecipeId)
    : (r: (Status, set<Link>))
    ensures Link(user, recipe) in links ==> r == (BadRequest, links)
    ensures Link(user, recipe) !in links && recipe !in recipes ==> r == (NotFound, links)
    ensures Link(user, recipe) !in links && recipe in recipes ==>
      r.0 == Ok && r.1 == links + {Link(user, recipe)} && |r.1| == |links| + 1
  {
    if Link(user, recipe) in links then (BadRequest, links)
    else if recipe !in recipes then (NotFound, links)
    else (Ok, links + {Link(user, recipe)})
  }

  /**
    DELETE: the row is looked up by recipe id only, whoever the requesting user
    is. No row gives 404, more than one gives 500, and a single row is deleted
    even when it belongs to another user.
  */
  function DeleteLink(links: set<Link>, user: UserId, recipe: RecipeId): (r: (Status, set<Link>))
    ensures r.0 == Ok <==> |RowsForRecipe(links, recipe)| == 1
    ensures r.0 == Ok ==> r.1 == links - RowsForRecipe(links, recipe) && |r.1| == |links| - 1
    ensures r.0 != Ok ==> r.1 == links
    ensures r.0 == NotFound <==> RowsForRecipe(links, recipe) == {}
    ensures r.0 == ServerError <==> |RowsForRecipe(links, recipe)| > 1
  {
    var found := RowsForRecipe(links, recipe);
    if |found| == 0 then (NotFound, links)
    else if |found| > 1 then (ServerError, links)
    else (Ok, links - found)
  }

  /** Adding a recipe nobody has linked and deleting it again restores the table. */
  lemma PostThenDeleteRestores(links: set<Link>, recipes: set<RecipeId>, user: UserId, recipe: RecipeId)
    requires recipe in recipes && RowsForRecipe(links, recipe) == {}
    ensures PostLink(links, recipes, user, recipe).0 == Ok
    ensures DeleteLink(PostLink(links, recipes, user, recipe).1, user, recipe) == (Ok, links)
  {
    var after := links + {Link(user, recipe)};
    forall l | l in after && l.recipe == recipe
      ensures l == Link(user, recipe)
    {
      assert l !in RowsForRecipe(links, recipe);
    }
    assert Link(user, recipe) in RowsForRecipe(after, recipe);
    assert Link(user, recipe) !in RowsForRecipe(links, recipe);
    assert Link(user, recipe) !in links;
    assert RowsForRecipe(after, recipe) == {Link(user, recipe)};
    assert after - {Link(user, recipe)} == links;
  }

  /** A second POST of the same recipe by the same user is refused and changes nothing. */
  lemma SecondPostRefused(links: set<Link>, recipes: set<RecipeId>, user: UserId, recipe: RecipeId)
    requires PostLink(links, recipes, user, recipe).0 == Ok
    ensures var once := PostLink(links, recipes, user, recipe).1;
      PostLink(once, recipes, user, recipe) == (BadRequest, once)
  {
  }

  /** A user's DELETE removes another user's row when that is the recipe's only row. */
  lemma DeleteRemovesOtherUsersRow(user: UserId, other: UserId, recipe: RecipeId)
    requires user != other
    ensures DeleteLink({Link(other, recipe)}, user, recipe) == (Ok, {})
  {
    assert RowsForRecipe({Link(other, recipe)}, recipe) == {Link(other, recipe)};
  }

  /**
    When another user also has the recipe, a user cannot remove their own row:
    the lookup by recipe id finds two rows and fails.
  */
  lemma DeleteFailsWhenRecipeShared(user: UserId, other: UserId, recipe: RecipeId)
    requires user != other
    ensures DeleteLink({Link(user, recipe), Link(other, recipe)}, user, recipe)
      == (ServerError, {Link(user, recipe), Link(other, recipe)})
  {
    var links := {Link(user, recipe), Link(other, recipe)};
    assert RowsForRecipe(links, recipe) == links;
  }

  /** The cart, favourite and recipe tables the two actions read and write. */
  class RecipeViewSet {
    var cart: set<Link>
    var favorites: set<Link>
    var recipes: set<RecipeId>

    constructor (recipes: set<RecipeId>)
      ensures cart == {} && favorites == {} && this.recipes == recipes
    {
      cart, favorites := {}, {};
      this.recipes := recipes;
    }

    /** `shopping_cart`: POST adds the recipe to the user's cart, DELETE removes a cart row. */
    method ShoppingCart(verb: Verb, user: UserId, pk: RecipeId) returns (status: Status)
      modifies this
      ensures verb == Post ==> (status, cart) == PostLink(old(cart), old(recipes), user, pk)
      ensures verb == Delete ==> (status, cart) == DeleteLink(old(cart), user, pk)
      ensures favorites == old(favorites) && recipes == old(recipes)
    {
      match verb
      case Post =>
        if Link(user, pk) in cart {
          return BadRequest;
        }
        if pk !in recipes {
          return NotFound;
        }
        cart := cart + {Link(user, pk)};
        return Ok;
      case Delete =>
        var found := RowsForRecipe(cart, pk);
        if |found| == 0 {
          return NotFound;
        }
        if |found| > 1 {
          return ServerError;
        }
        cart := cart - found;
        return Ok;
    }

    /** `favorite`: POST marks the recipe as the user's favourite, DELETE removes a favourite row. */
    method Favorite(verb: Verb, user: UserId, pk: RecipeId) returns (status: Status)
      modifies this
      ensures verb == Post ==> (status, favorites) == PostLink(old(favorites), old(recipes), user, pk)
      ensures verb == Delete ==> (status, favorites) == DeleteLink(old(favorites), user, pk)
      ensures cart == old(cart) && recipes == old(recipes)
    {
      match verb
      case Post =>
        if Link(user, pk) in favorites {
          return BadRequest;
        }
        if pk !in recipes {
          return NotFound;
        }
        favorites := favorites + {Link(user, pk)};
        return Ok;
      case Delete =>
        var found := RowsForRecipe(favorites, pk);
        if |found| == 0 {
          return NotFound;
        }
        if |found| > 1 {
          return ServerError;
        }
        favorites := favorites - found;
        return Ok;
    }
  }

  /**
    `download_shopping_cart`: the rows of the user's cart are aggregated and the
    result laid out; item k + 1 names the k-th distinct ingredient in order of
    first occurrence, with the unit of its first row and the sum of its amounts.
  */
  method DownloadShoppingCart(rows: seq<Row>) returns (commands: seq<Command>)
    ensures |commands| == |DistinctNames(rows)| + 5
    ensures commands[1] == DrawString(200, 800, "Shopping list")
    ensures forall k :: 0 <= k < |DistinctNames(rows)| ==>
      var name := DistinctNames(rows)[k];
      commands[3 + k] == DrawString(75, 750 - 25 * k,
        ItemText(k + 1, name, Entry(rows[FirstIndex(rows, name)].unit, TotalAmount(rows, name))))
  {
    var list := Aggregate(rows);
    ShoppingListValid(rows);
    commands := Render(list);
    forall k | 0 <= k < |list.keys|
      ensures commands[3 + k] == DrawString(75, 750 - 25 * k,
        ItemText(k + 1, list.keys[k], EntryOf(rows, list.keys[k])))
    {
      ItemPlacement(list, k + 1);
      assert list.entries[list.keys[k]] == EntryOf(rows, list.keys[k]);
    }
  }

  /** The page for the cart Salt 5 g, Sugar 3 g, Salt 2 g, line by line. */
  lemma SaltAndSugarPage()
    ensures var list := ShoppingListOf([Row("Salt", "g", 5), Row("Sugar", "g", 3), Row("Salt", "g", 2)]);
      Valid(list) && Page(list) ==
      [ SetFont("Georgia", 24), DrawString(200, 800, "Shopping list"), SetFont("Georgia", 16),
        DrawString(75, 750, "1. Salt - 7, g"), DrawString(75, 725, "2. Sugar - 3, g"),
        ShowPage, Save ]
  {
    assert "Salt" != "Sugar" by {
      assert "Salt"[1] != "Sugar"[1];
    }
    InterleavedRowsExample("Salt", "Sugar", "g");
    SaltAndSugarListPage();
  }

  lemma SaltAndSugarListPage()
    ensures var list := ShoppingList(["Salt", "Sugar"], map["Salt" := Entry("g", 7), "Sugar" := Entry("g", 3)]);
      Valid(list) && Page(list) ==
      [ SetFont("Georgia", 24), DrawString(200, 800, "Shopping list"), SetFont("Georgia", 16),
        DrawString(75, 750, "1. Salt - 7, g"), DrawString(75, 725, "2. Sugar - 3, g"),
        ShowPage, Save ]
  {
    var list := ShoppingList(["Salt", "Sugar"], map["Salt" := Entry("g", 7), "Sugar" := Entry("g", 3)]);
    assert Valid(list) by {
      assert "Salt" != "Sugar" by {
        assert "Salt"[1] != "Sugar"[1];
      }
    }
    TwoItemPage(list);
    SaltItemText();
    SugarItemText();
    assert ItemLine(list, 0) == DrawString(75, 750, "1. Salt - 7, g");
    assert ItemLine(list, 1) == DrawString(75, 725, "2. Sugar - 3, g");
  }

  lemma TwoItemPage(list: ShoppingList)
    requires Valid(list) && |list.keys| == 2
    ensures Page(list) == Header() + [ItemLine(list, 0), ItemLine(list, 1)] + Footer()
  {
    var items := seq(|list.keys|, k requires 0 <= k < |list.keys| => ItemLine(list, k));
    assert items == [ItemLine(list, 0), ItemLine(list, 1)];
  }

  lemma SaltItemText()
    ensures ItemText(1, "Salt", Entry("g", 7)) == "1. Salt - 7, g"
  {
    assert NatToString(1) == "1" && NatToString(7) == "7";
  }

  lemma SugarItemText()
    ensures ItemText(2, "Sugar", Entry("g", 3)) == "2. Sugar - 3, g"
  {
    assert NatToString(2) == "2" && NatToString(3) == "3";
  }
}
