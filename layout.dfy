/**
  The shopping-list page of `http2pdf` (backend/api/utils.py): a title and one
  numbered line per dictionary entry, drawn on a single page. The canvas is
  modelled by the sequence of calls made on it.
*/
module Layout {
  import opened Aggregation
  import opened Decimal

  /** One call on the canvas, in the order the page receives them. */
  datatype Command =
    | SetFont(face: string, size: nat)
    | DrawString(x: int, y: int, text: string)
    | ShowPage
    | Save

  const Font := "Georgia"
  const Title := "Shopping list"
  const TitleX := 200
  const TitleY := 800
  const ItemX := 75
  const FirstItemY := 750
  const LineHeight := 25

  /** The text of item `i` (1-based): "{i}. {name} - {amount}, {unit}". */
  function ItemText(i: nat, name: string, e: Entry): (text: string)
    ensures NatToString(i) + ". " <= text
  {
    NatToString(i) + ". " + name + " - " + NatToString(e.amount) + ", " + e.unit
  }

  /** The baseline of item `i` (1-based): 750 for the first, 25 lower for each next one. */
  function ItemY(i: nat): int
  {
    FirstItemY - LineHeight * (i - 1)
  }

  /** The draw command for the `k`-th key (0-based), numbered k + 1. */
  function ItemLine(list: ShoppingList, k: nat): Command
    requires Valid(list) && k < |list.keys|
  {
    var name := list.keys[k];
    DrawString(ItemX, ItemY(k + 1), ItemText(k + 1, name, list.entries[name]))
  }

  function Header(): seq<Command>
  {
    [SetFont(Font, 24), DrawString(TitleX, TitleY, Title), SetFont(Font, 16)]
  }

  function Footer(): seq<Command>
  {
    [ShowPage, Save]
  }

  /** The whole page: header, one item line per key in key order, then a single page end. */
  function Page(list: ShoppingList): (page: seq<Command>)
    requires Valid(list)
    ensures |page| == |list.keys| + 5
  {
    Header() + seq(|list.keys|, k requires 0 <= k < |list.keys| => ItemLine(list, k)) + Footer()
  }

  /**
    `http2pdf`: the loop over `enumerate(list.items(), 1)` draws each item at the
    current height and then lowers the height by 25.
  */
  method Render(list: ShoppingList) returns (commands: seq<Command>)
    requires Valid(list)
    ensures commands == Page(list)
  {
    commands := [SetFont(Font, 24), DrawString(TitleX, TitleY, Title), SetFont(Font, 16)];
    var height := FirstItemY;
    for i := 0 to |list.keys|
      invariant height == FirstItemY - LineHeight * i
      invariant |commands| == 3 + i
      invariant commands[..3] == Header()
      invariant forall k :: 0 <= k < i ==> commands[3 + k] == ItemLine(list, k)
    {
      var name := list.keys[i];
      commands := commands + [DrawString(ItemX, height, ItemText(i + 1, name, list.entries[name]))];
      height := height - LineHeight;
    }
    commands := commands + [ShowPage, Save];
    assert commands == Page(list);
  }

  /** The number a drawn item line starts with. */
  function ItemNumber(text: string): nat
  {
    DigitsValue(LeadingDigits(text))
  }

  /**
    Numbering starts at 1 and rises by exactly one per entry: the `k`-th item
    line carries the number k + 1, so no number is skipped or repeated.
  */
  lemma ItemNumbering(list: ShoppingList, k: nat)
    requires Valid(list) && k < |list.keys|
    ensures Page(list)[3 + k].DrawString?
    ensures ItemNumber(Page(list)[3 + k].text) == k + 1
  {
    var name := list.keys[k];
    var e := list.entries[name];
    var rest := ". " + name + " - " + NatToString(e.amount) + ", " + e.unit;
    assert ItemText(k + 1, name, e) == NatToString(k + 1) + rest;
    LeadingDigitsOfRun(NatToString(k + 1), rest);
    DigitsValueOfNatToString(k + 1);
  }

  /**
    Item `i` (1-based) is the `i`-th dictionary entry, drawn at x = 75 and
    y = 750 - 25 * (i - 1); that y is negative exactly from the 32nd entry on,
    as the height is never reset.
  */
  lemma ItemPlacement(list: ShoppingList, i: nat)
    requires Valid(list) && 1 <= i <= |list.keys|
    ensures Page(list)[2 + i].DrawString?
    ensures Page(list)[2 + i].x == 75 && Page(list)[2 + i].y == 750 - 25 * (i - 1)
    ensures Page(list)[2 + i].text == ItemText(i, list.keys[i - 1], list.entries[list.keys[i - 1]])
    ensures Page(list)[2 + i].y < 0 <==> i >= 32
  {
  }

  /**
    The title is drawn once, at (200, 800) and before every item; no item line
    has the title's text, because every item text begins with a digit.
  */
  lemma TitleDrawnOnceFirst(list: ShoppingList)
    requires Valid(list)
    ensures Page(list)[1] == DrawString(200, 800, "Shopping list")
    ensures forall j :: 0 <= j < |Page(list)| && j != 1 ==> Page(list)[j] != DrawString(200, 800, "Shopping list")
    ensures forall j :: 0 <= j < |Page(list)| && Page(list)[j].DrawString? && j != 1 ==> 1 < j
  {
    var page := Page(list);
    forall j | 3 <= j < 3 + |list.keys|
      ensures page[j].DrawString? && IsDigit(page[j].text[0])
    {
      var name := list.keys[j - 3];
      assert ItemText(j - 2, name, list.entries[name])[0] == NatToString(j - 2)[0];
    }
    assert !IsDigit(Title[0]);
  }

  /**
    Exactly one page is emitted whatever the number of entries: a single
    `showPage`, after every drawn string, followed by `save`.
  */
  lemma SinglePage(list: ShoppingList)
    requires Valid(list)
    ensures Page(list)[|Page(list)| - 2] == ShowPage && Page(list)[|Page(list)| - 1] == Save
    ensures forall j :: 0 <= j < |Page(list)| - 2 ==> Page(list)[j] != ShowPage
  {
  }

  /** An empty dictionary draws the title and nothing else. */
  lemma EmptyListDrawsOnlyTitle()
    ensures Page(ShoppingList([], map[])) ==
      [SetFont("Georgia", 24), DrawString(200, 800, "Shopping list"), SetFont("Georgia", 16), ShowPage, Save]
  {
  }
}
