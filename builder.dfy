/** `getItemsPerRow` and `buildLayout`: the geometry a breakpoint shows for an
    ordered list of item ids, laid out row-major in equal-width cells. */
module Builder {
  import opened Grid
  import opened ReadingOrder

  /** `getItemsPerRow`: three cells per row on grids of six columns or more, else one. */
  function ItemsPerRow(cols: int): (n: int)
    ensures n == 1 || n == 3
    ensures n == 3 <==> cols >= 6
  {
    if cols >= 6 then 3 else 1
  }

  /** `Math.floor(cols / itemsPerRow)`. The divisor is positive, and for a
      positive divisor Dafny's `/` is floor division: a full row of cells fits
      and leaves less than one cell width of slack. On any grid with a column
      every cell is at least one column wide;
      in multi-column rows a cell is at least two wide. */
  function ItemWidth(cols: int): (w: int)
    ensures ItemsPerRow(cols) * w <= cols < ItemsPerRow(cols) * (w + 1)
    ensures cols >= 1 ==> w >= 1
    ensures ItemsPerRow(cols) == 3 ==> w >= 2
  {
    cols / ItemsPerRow(cols)
  }

  /** The cell that `buildLayout` emits for item `id` at position `index`: it
      carries `id`, starts on an even row, is one row high and carries no
      optional field; on a grid with at least one column it lies inside the grid. */
  function CellAt(id: string, index: nat, cols: int): (c: Cell)
    ensures c.i == id && Bare(c) && c.h == ITEM_HEIGHT && c.w == ItemWidth(cols)
    ensures c.y >= 0 && c.y % ITEM_HEIGHT == 0
    ensures cols >= 1 ==> 0 <= c.x && c.x + c.w <= cols
  {
    var n := ItemsPerRow(cols);
    var w := ItemWidth(cols);
    Plain(id, (index % n) * w, (index / n) * ITEM_HEIGHT, w, ITEM_HEIGHT)
  }

  /** `buildLayout(order, cols)`: one cell per id, in the order given; every
      cell is one row high, has the breakpoint's item width, and carries none of
      the optional fields. */
  function BuildLayout(order: seq<string>, cols: int): (r: seq<Cell>)
    ensures |r| == |order| && Ids(r) == order
    ensures forall c | c in r :: Bare(c) && c.h == ITEM_HEIGHT && c.w == ItemWidth(cols)
  {
    seq(|order|, k requires 0 <= k < |order| => CellAt(order[k], k, cols))
  }

  /** Helper: the row and the slot within the row of the cell at `index`,
      spelled out for each of the two row widths. */
  lemma CellAtPlace(id: string, index: nat, cols: int)
    ensures ItemsPerRow(cols) == 1 ==> CellAt(id, index, cols).x == 0 && CellAt(id, index, cols).y == 2 * index
    ensures ItemsPerRow(cols) == 3 ==>
      CellAt(id, index, cols).x == (index % 3) * ItemWidth(cols) && CellAt(id, index, cols).y == 2 * (index / 3)
  {
  }

  /** Cells `j < k` of a built layout: the later cell is on a lower row, or on
      the same row and strictly to the right. */
  lemma {:induction false} CellsInReadingOrder(a: string, b: string, j: nat, k: nat, cols: int)
    requires j < k
    ensures Compare(CellAt(a, j, cols), CellAt(b, k, cols)) < 0
  {
    CellAtPlace(a, j, cols);
    CellAtPlace(b, k, cols);
    if ItemsPerRow(cols) == 3 {
      var w := ItemWidth(cols);
      if j / 3 == k / 3 {
        assert j % 3 < k % 3;
        SlotsApart(j % 3, k % 3, w);
      }
    }
  }

  /** Two different slots of one row (or a slot and the row end) are at least a cell width apart. */
  lemma SlotsApart(a: nat, b: nat, w: int)
    requires a < b <= 3 && w >= 1
    ensures a * w + w <= b * w
  {
    assert b * w == a * w + (b - a) * w;
  }

  /** A built layout is strictly in reading order, whatever the column count:
      along the list, `y` never falls, and within a row `x` strictly rises. */
  lemma BuildLayoutInReadingOrder(order: seq<string>, cols: int)
    ensures forall j, k :: 0 <= j < k < |order| ==>
      BuildLayout(order, cols)[j].y <= BuildLayout(order, cols)[k].y &&
      (BuildLayout(order, cols)[j].y == BuildLayout(order, cols)[k].y ==>
         BuildLayout(order, cols)[j].x < BuildLayout(order, cols)[k].x)
    ensures Sorted(BuildLayout(order, cols))
  {
    var r := BuildLayout(order, cols);
    forall j, k | 0 <= j < k < |order|
      ensures Compare(r[j], r[k]) < 0
    {
      CellsInReadingOrder(order[j], order[k], j, k, cols);
    }
  }

  /** Round trip: the reading order of a built layout is the order it was
      built from, at every column count. */
  lemma RoundTrip(order: seq<string>, cols: int)
    ensures Order(BuildLayout(order, cols)) == order
  {
    BuildLayoutInReadingOrder(order, cols);
    SortLayoutOfSorted(BuildLayout(order, cols));
  }

  /** On a grid with at least one column, every built cell lies inside the grid. */
  lemma BuildLayoutInBounds(order: seq<string>, cols: int)
    requires cols >= 1
    ensures forall c | c in BuildLayout(order, cols) ::
      c.x >= 0 && c.y >= 0 && c.w >= 1 && c.h == ITEM_HEIGHT && c.x + c.w <= cols
  {
    var r := BuildLayout(order, cols);
    forall k | 0 <= k < |r|
      ensures r[k].x >= 0 && r[k].y >= 0 && r[k].x + r[k].w <= cols
    {
      CellAtPlace(order[k], k, cols);
      if ItemsPerRow(cols) == 3 {
        SlotsApart(k % 3, 3, ItemWidth(cols));
      }
    }
  }

  /** No two built cells overlap, whatever the column count. */
  lemma BuildLayoutNoOverlap(order: seq<string>, cols: int)
    ensures forall j, k :: 0 <= j < k < |order| ==>
      var a, b := BuildLayout(order, cols)[j], BuildLayout(order, cols)[k];
      a.x + a.w <= b.x || b.x + b.w <= a.x || a.y + a.h <= b.y || b.y + b.h <= a.y
  {
    var r := BuildLayout(order, cols);
    forall j, k | 0 <= j < k < |order|
      ensures r[j].x + r[j].w <= r[k].x || r[j].y + r[j].h <= r[k].y
    {
      CellAtPlace(order[j], j, cols);
      CellAtPlace(order[k], k, cols);
      if ItemsPerRow(cols) == 3 && j / 3 == k / 3 {
        SlotsApart(j % 3, k % 3, ItemWidth(cols));
      }
    }
  }

  /** On narrow grids (one to five columns) the layout is a single stack: every
      cell spans the full width at `x = 0`, each one row below the last. */
  lemma NarrowGridStacks(order: seq<string>, cols: int)
    requires 1 <= cols < 6
    ensures forall k :: 0 <= k < |order| ==>
      BuildLayout(order, cols)[k].x == 0 && BuildLayout(order, cols)[k].w == cols &&
      BuildLayout(order, cols)[k].y == 2 * k
  {
  }
}
