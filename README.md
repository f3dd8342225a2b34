# Foodgram backend core in Dafny

A model of the few parts of the Foodgram recipe-sharing backend (a Django REST
service) that hold logic of their own rather than delegating to the ORM:

- **Shopping-list aggregation** (`Aggregation`): `download_shopping_cart` folds
  the (ingredient name, unit, amount) rows of every recipe in the user's cart
  into an insertion-ordered dictionary keyed by ingredient name. The first row
  of a name fixes its unit and the amounts are summed. `Aggregate` is the loop,
  proved equal to the declarative `ShoppingListOf`, about which the lemmas state
  the grouping, the first-occurrence order, the unit rule and the conservation
  of the total amount.
- **Shopping-list layout** (`Layout`): `http2pdf` draws the title at (200, 800)
  and item `i` as `"{i}. {name} - {amount}, {unit}"` at x = 75,
  y = 750 - 25 (i - 1), then one `showPage`. The canvas is modelled by the
  sequence of calls it receives; `Render` is the loop with its decreasing
  height, proved equal to `Page`.
- **Request rules of the serializers** (`Serializers`): the duplicate-ingredient
  check that `create` finishes before it saves anything, the writes of `create`
  and `update`, the `recipes_limit` truncation and the `is_subscribed` guard.
- **Tag colour validation** (`Validators`): `^#(?:[0-9a-fA-F]{3}){1,2}$` under
  Python's `re.search`, where `$` also matches before a final newline.
- **Cart and favourite actions** (`Views`): POST and DELETE on sets of
  (user, recipe) rows, and the end-to-end download.
- `Decimal` gives the decimal numerals that f-strings print and the part of
  `int()` that reads the limit; `Common` holds the Option/Result wrappers.

Behaviour of the code that the model keeps:
- Rows are merged by ingredient name alone. Two rows with the same name and
  different units are summed under the first row's unit.
- Everything is drawn on one page and the height is never reset, so from the
  32nd entry on the y coordinate is negative; there is no page-break logic.
- DELETE on the cart or the favourites looks a row up by recipe id only. A user
  can delete another user's row, and cannot delete their own row while another
  user holds the same recipe (two rows match and the lookup fails).
- `update` sets image and cooking time but never name or text, because it
  re-fetches the recipe and assigns only those two fields before saving. It
  does not check ingredient ids for repeats, unlike `create`.
- `create` without a `tags` key fails only after the recipe has been saved.
- `update` with a `tags` or `ingredients` key whose value is `null` clears the
  tags or deletes the ingredient rows and then fails with a TypeError, leaving
  the recipe stripped.

## Model

| member | source | states |
|---|---|---|
| `Aggregation.Aggregate` | backend/api/views.py:106-119 | the loop that builds the dictionary in place returns exactly `ShoppingListOf(rows)` |
| `Aggregation.ShoppingListOf` | backend/api/views.py:106-119 | the reference for the dictionary the loop builds (one entry per distinct name, first unit, summed amount); its own contract bounds the number of keys by the number of rows, and `ShoppingListShape` and the lemmas below state the rest |
| `Aggregation.ShoppingListOfSnoc` | backend/api/views.py:113-119 | one more row either appends its name as a new last key with its own unit and amount, or adds its amount to the existing entry and leaves the unit and key order alone |
| `Aggregation.FirstIndex` | backend/api/views.py:113-117 | the entry for a name is created from a row with that name, and no earlier row has that name |
| `Aggregation.ShoppingListShape` | backend/api/views.py:106-119 | one entry per distinct ingredient name of the input and no others, keys listed once each, never more entries than rows, an empty cart gives an empty dictionary |
| `Aggregation.FirstOccurrenceOrder` | backend/api/views.py:113-117 | keys are in the order in which their names first occur in the input |
| `Aggregation.LaterUnitsIgnored` | backend/api/views.py:114-119 | rows after a name's first row never change that name's unit |
| `Aggregation.AggregationConservesTotal` | backend/api/views.py:113-119 | the amounts of the entries add up to the amounts of all rows |
| `Aggregation.TotalAmountPermutation` | backend/api/views.py:119 | a name's total is the same for any order of the same rows |
| `Aggregation.InterleavedRowsExample` | backend/api/views.py:111-119 | rows a 5, b 3, a 2 (a and b different names, same unit) give a with 7 first and b with 3 second |
| `Aggregation.TwoRowsExample` | backend/api/views.py:111-119 | rows a 5, b 3 with different names give two entries, a first |
| `Aggregation.RepeatedIngredientExample` | backend/api/views.py:111-119 | three rows of amount 1 for the same ingredient give one entry of amount 3 |
| `Layout.Page` | backend/api/utils.py:9-18 | the page holds three header calls, one call per entry, then `showPage` and `save` |
| `Layout.ItemText` | backend/api/utils.py:14-15 | the item text `{i}. {name} - {amount}, {unit}` begins with the printed number and ". "; `ItemNumbering` reads that number back |
| `Layout.Render` | backend/api/utils.py:9-18 | the loop that lowers the height by 25 per item issues exactly the calls of `Page` |
| `Layout.ItemNumbering` | backend/api/utils.py:13-15 | the k-th item line starts with the number k + 1, so numbering starts at 1 with no gap or repeat |
| `Layout.ItemPlacement` | backend/api/utils.py:12-16 | item i is the i-th entry, drawn at x = 75 and y = 750 - 25 (i - 1), and its y is negative exactly when i is 32 or more |
| `Layout.TitleDrawnOnceFirst` | backend/api/utils.py:9-15 | the title is drawn once, at (200, 800), before every item |
| `Layout.SinglePage` | backend/api/utils.py:13-18 | a single `showPage` ends the page after every drawn line, then `save` |
| `Layout.EmptyListDrawsOnlyTitle` | backend/api/utils.py:9-18 | an empty dictionary draws only the title |
| `Decimal.NatToString` | backend/api/utils.py:14-15 | a number is printed as decimal digits without a leading zero |
| `Decimal.DigitsValueOfNatToString` | backend/api/utils.py:14-15 | the printed digits read back as the number |
| `Decimal.ParseIntOfNumeral` | backend/api/serializers.py:203 | `int()` reads back a printed number and its negation |
| `Decimal.ParseInt` | backend/api/serializers.py:203 | `int()` on a sign and ASCII digits: an accepted string ends in a digit, only a leading '-' gives a negative value, and a plain digit string gives its decimal value |
| `Decimal.ParseIntRefusesNonNumeric` | backend/api/serializers.py:203 | `int()` refuses a string without digits |
| `Validators.SearchAnchored` | backend/api/validators.py:7 | because of `^`, `re.search` succeeds exactly when the pattern matches at position 0 |
| `Validators.Accepts` | backend/api/validators.py:7-8 | the validator passes exactly `#` followed by 3 or 6 hex digits, optionally followed by one final newline |
| `Validators.HexCodeValidator` | backend/api/validators.py:6-8 | a failure carries `ValidationError('Invalid HEX-code!')`; a pass needs 4 to 8 characters starting with `#` and a hex digit; `Accepts` gives the exact condition |
| `Validators.AcceptsThreeDigits` | backend/api/validators.py:7 | `#` and three hex digits pass, also with a final newline |
| `Validators.AcceptsSixDigits` | backend/api/validators.py:7 | `#` and six hex digits pass, also with a final newline |
| `Validators.RejectsOtherLengths` | backend/api/validators.py:7-8 | any other number of hex digits fails with ValidationError('Invalid HEX-code!') |
| `Validators.RejectsWithoutHash` | backend/api/validators.py:7-8 | a string not starting with `#` fails |
| `Validators.RejectsNonHexDigit` | backend/api/validators.py:7-8 | a non-hex character after `#`, other than one final newline, fails |
| `Validators.MixedCaseAccepted` | backend/api/validators.py:7 | hex letters pass in either case, and the default colour `#0000ff` passes |
| `Serializers.Ids` | backend/api/serializers.py:117-126 | the ids of the requested ingredients, in request order |
| `Serializers.Rows` | backend/api/serializers.py:105-111 | one ingredient row per requested ingredient, with its id and amount, in request order |
| `Serializers.FirstRepeat` | backend/api/serializers.py:117-125 | the first repeat in scan order: its id occurred before it and nothing repeats earlier |
| `Serializers.DuplicateError` | backend/api/serializers.py:117-125 | the error names an id that occurs at least twice in the request; it is the duplicate ValidationError with that ingredient's name when the ingredient exists, and a 404 otherwise |
| `Serializers.CheckIngredients` | backend/api/serializers.py:116-126 | fails iff some id occurs twice; on success the list is the request's ids in order; on failure it reports the first repeat, or a 404 when that id names no ingredient |
| `Serializers.Recipe.constructor` | backend/api/serializers.py:127 | a new recipe takes the validated fields and has no tags and no ingredient rows |
| `Serializers.Recipe.Update` | backend/api/serializers.py:132-146 | tags replaced iff a `tags` key is present, ingredient rows iff an `ingredients` key is present, image and cooking time set, name and text unchanged; a key holding `null` clears the tags or rows and fails with the matching error, leaving image and cooking time as they were |
| `Serializers.RecipeStore.Create` | backend/api/serializers.py:113-130 | a missing `ingredients` key or a repeated id saves nothing; otherwise exactly one new recipe is saved with its tags and rows, or without them when `tags` is missing |
| `Serializers.RecipesShown` | backend/api/serializers.py:198-204 | the shown recipes are a prefix of the author's recipes, all of them when no or an empty limit is given |
| `Serializers.RecipesLimitTruncates` | backend/api/serializers.py:200-203 | a limit k shows exactly the first min(k, count) recipes |
| `Serializers.RecipesLimitRefused` | backend/api/serializers.py:202-203 | a negative or non-numeric limit fails instead of showing recipes |
| `Serializers.IsSubscribed` | backend/api/serializers.py:13-20 | true iff the requester is authenticated, is not the viewed user and follows them |
| `Serializers.SelfGuardRedundantUnderConstraint` | backend/api/serializers.py:15-16 | where no one follows themselves, the self guard changes no answer |
| `Views.PostLink` | backend/api/views.py:83-94 | an existing (user, recipe) row gives 400 and no change; an unknown recipe gives 404; otherwise exactly that one row is added |
| `Views.DeleteLink` | backend/api/views.py:95-98 | succeeds iff exactly one row has the recipe id, whoever owns it, and then removes just that row; 404 iff no row has it, 500 iff more than one does, and then nothing changes |
| `Views.PostThenDeleteRestores` | backend/api/views.py:83-98 | adding a recipe no one holds and deleting it restores the table |
| `Views.SecondPostRefused` | backend/api/views.py:84-87 | a second add of the same recipe by the same user gives 400 and no change |
| `Views.DeleteRemovesOtherUsersRow` | backend/api/views.py:96-97 | a user's DELETE removes another user's only row for the recipe |
| `Views.DeleteFailsWhenRecipeShared` | backend/api/views.py:96-97 | with two users holding the recipe, DELETE fails and nothing is removed |
| `Views.RecipeViewSet.ShoppingCart` | backend/api/views.py:82-98 | POST and DELETE change the cart as `PostLink` and `DeleteLink` say and leave the favourites alone |
| `Views.RecipeViewSet.Favorite` | backend/api/views.py:131-149 | POST and DELETE change the favourites as `PostLink` and `DeleteLink` say and leave the cart alone |
| `Views.DownloadShoppingCart` | backend/api/views.py:105-124 | item k + 1 of the page is the k-th distinct ingredient in first-occurrence order, with its first unit and summed amount, at y = 750 - 25 k |
| `Views.SaltAndSugarPage` | backend/api/views.py:111-123 | the Salt, Sugar, Salt cart draws exactly "1. Salt - 7, g" at 750 and "2. Sugar - 3, g" at 725 |

## Left out

- The ORM query that produces the cart rows (backend/api/views.py:107-110): its result is the input sequence of rows.
- reportlab: font registration, the canvas, the bytes written to the response and the failure when the font file is missing. Only the sequence of canvas calls is modelled.
- HTTP plumbing: the response object, its Content-Disposition header, permissions and authentication, pagination and URL routing.
- `Base64ImageField` and image storage: the image is a plain string.
- Database constraints: favourite rows are a set of (user, recipe) pairs, which stands for the unique constraint on Favorite (backend/recipes/models.py:155-161). Cart has no such constraint; its set stands for what the `exists()` test before each POST keeps true under one request at a time. Duplicate cart rows made through the admin or by two concurrent POSTs, which would make DELETE fail with `MultipleObjectsReturned` and count the recipe's ingredients twice in the download, are not modelled. Foreign-key failures for unknown tag or ingredient ids in `add_ingredients` and `tags.set` are not modelled.
- Amounts are unbounded naturals; the bound of the small positive integer column (models.py) is not imposed.
- Request values are integers; how Python's `==` compares ids of other JSON types (strings, `None`) is not modelled.
- `Serializers.RecipesShown`: `int()` is modelled for an optional sign and ASCII digits only; Python also accepts surrounding whitespace, underscores and non-ASCII digits, which this model refuses.
- `Serializers.Recipe.Update`: only a full update is modelled; a partial one, where `validated_data` lacks image or cooking time and `None` is assigned, is not.
- `Serializers.RecipeStore.Create`: the settings are not part of this model; it assumes requests are not wrapped in a database transaction, so the recipe saved before a missing-`tags` failure stays saved.
- `subscribe`, `subscriptions`, `get_is_favorited`, `get_is_in_shopping_cart`, `SubscriptionSerializer.validate` and the other serializer fields are declarative or ORM lookups and are not part of this model; so are filters.py, admin.py and the migrations.
