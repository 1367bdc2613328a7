# Layout synchronisation for a responsive grid of cards

This project models the layout-synchronisation functions of a responsive,
multi-breakpoint grid of six draggable cards, and proves their properties in Dafny.
The grid has five breakpoints: `lg`, `md`, `sm`, `xs` and `xxs`, with 12, 10, 6, 4 and 2 columns.
When `syncAllLayouts` is called with one breakpoint's cells, it does two things:

- It reads those cells in *reading order*: top to bottom by `y`, then
  left to right by `x`, with a stable sort.
- It rebuilds the geometry of every breakpoint from that one order. Three equal
  cells go in a row on grids of six columns or more, and one full-width cell
  goes in a row on narrower grids. Every cell is two rows high.

The invariant these functions are built to give is that every breakpoint of their result shows the
same reading order. None of `src/App.tsx`, the components or `src/context/LayoutContext.tsx` calls `syncAllLayouts` (see "## Left out").

Modules, one per part of `src/utils/layoutSync.ts`:

- `Grid` (`grid.dfy`) holds the types and the constants. These are the cell record with its optional
  constraint fields, the breakpoints with `COLS` and `BREAKPOINTS`, `ITEM_HEIGHT` and `ITEMS`.
- `ReadingOrder` (`reading_order.dfy`) models `sortLayout`. It is an insertion sort with the
  source's comparator. It is proved sorted, a permutation and stable. It is also proved to be the only
  sorted stable arrangement, so the model does not depend on which stable algorithm the JavaScript engine uses.
- `Builder` (`builder.dfy`) models `getItemsPerRow` and `buildLayout`. It proves the bounds, that no two cells
  overlap, the strict reading order of the result, and the round trip: sorting a built layout gives back the order it was built from.
- `Sync` (`sync.dfy`) models `syncAllLayouts` and `generateInitialLayouts`. Both are loops that fill a map, one
  breakpoint at a time, and each is proved against the specification function `LayoutsFor`.
  The lemmas prove cross-breakpoint consistency, idempotence and the initial `lg` geometry.

Layout sets are maps keyed by a `Breakpoint` datatype. `Grid.Name` gives the string key that the program uses.
`sortLayout` sorts a copy. In the model, sequences are values, so the caller's list cannot change.

## Model

| member | source | states |
|---|---|---|
| `Grid.Breakpoints` | src/utils/layoutSync.ts:173-179 | the five breakpoints of `COLS`, each exactly once, in declaration order |
| `Grid.BreakpointsComplete` | src/utils/layoutSync.ts:173-179 | every breakpoint is one that the loops over `COLS` visit |
| `Grid.ConfigWellFormed` | src/utils/layoutSync.ts:165-179 | from `lg` down to `xxs`, thresholds strictly fall and columns never rise; all columns are positive; the keys are distinct |
| `Grid.Cols` | src/utils/layoutSync.ts:173-179 | `COLS`: every breakpoint has between 2 and 12 columns |
| `Grid.Threshold` | src/utils/layoutSync.ts:165-171 | `BREAKPOINTS`: only `xxs` starts at width 0, so every container width has a breakpoint |
| `Grid.DecimalString` | src/utils/layoutSync.ts:219 | `String(n)` is a non-empty string of decimal digits that spells `n`, with a leading `0` only for `"0"` |
| `ReadingOrder.Compare` | src/utils/layoutSync.ts:190-193 | the comparator is negative exactly when the first cell is on a higher row, or on the same row and further left, and zero exactly when both share a position |
| `ReadingOrder.CompareAntisymmetric` | src/utils/layoutSync.ts:190-193 | swapping the comparator's arguments flips its sign |
| `ReadingOrder.Insert` | src/utils/layoutSync.ts:190-193 | one insertion step adds exactly the given cell to the list |
| `ReadingOrder.SortLayout` | src/utils/layoutSync.ts:189-193 | the sorted copy has the same length and the same multiset of cells as the input |
| `ReadingOrder.Ids` | src/utils/layoutSync.ts:235 | `.map((l) => l.i)`: one id per cell, in list order |
| `ReadingOrder.Order` | src/utils/layoutSync.ts:235 | the reading order has one entry per cell, and each id appears in it as often as in the layout |
| `ReadingOrder.SortLayoutIds` | src/utils/layoutSync.ts:189-193 | sorting neither adds nor drops an id |
| `ReadingOrder.SortLayoutSorted` | src/utils/layoutSync.ts:190-193 | the result is ordered by `y` ascending, then by `x` ascending |
| `ReadingOrder.SortLayoutStable` | src/utils/layoutSync.ts:189-193 | cells that share one `(y, x)` position keep their input relative order |
| `ReadingOrder.SortedArrangementUnique` | src/utils/layoutSync.ts:189-193 | two sorted lists that hold the same cells of each position in the same order are equal |
| `ReadingOrder.SortLayoutCharacterised` | src/utils/layoutSync.ts:189-193 | any sorted stable arrangement of the input is exactly `SortLayout` of it, so the model fixes the result of any stable sort |
| `ReadingOrder.SortLayoutOfSorted` | src/utils/layoutSync.ts:189-193 | a layout already in reading order is returned unchanged |
| `Builder.ItemsPerRow` | src/utils/layoutSync.ts:196-199 | three cells per row exactly when the grid has at least 6 columns, otherwise one |
| `Builder.ItemWidth` | src/utils/layoutSync.ts:196-204 | `Math.floor`: a full row of cells fits the grid, and the slack it leaves is less than one cell width; on a grid with at least one column a cell is at least 1 wide, and with three cells per row at least 2 wide |
| `Builder.BuildLayout` | src/utils/layoutSync.ts:202-213 | one cell per id, with the ids in the given order; every cell is `ITEM_HEIGHT` high, has the row's item width and carries no optional field |
| `Builder.CellAt` | src/utils/layoutSync.ts:206-212 | the emitted cell carries its id, starts on an even row, is `ITEM_HEIGHT` high, has no optional field, and for `cols >= 1` lies inside the grid |
| `Builder.CellsInReadingOrder` | src/utils/layoutSync.ts:206-212 | of two built cells, the one at the later index comes strictly later in reading order |
| `Builder.BuildLayoutInReadingOrder` | src/utils/layoutSync.ts:202-213 | along a built layout, `y` never falls; within a row, `x` strictly rises; at every column count |
| `Builder.RoundTrip` | src/utils/layoutSync.ts:189-213 | the ids of `sortLayout(buildLayout(order, cols))` equal `order`, for every column count |
| `Builder.BuildLayoutInBounds` | src/utils/layoutSync.ts:202-213 | for `cols >= 1`, every cell has `x >= 0`, `y >= 0`, `w >= 1`, `h = 2` and `x + w <= cols` |
| `Builder.BuildLayoutNoOverlap` | src/utils/layoutSync.ts:202-213 | no two built cells overlap, at every column count |
| `Builder.NarrowGridStacks` | src/utils/layoutSync.ts:196-213 | on 1 to 5 columns, the layout is one full-width column: `x = 0`, `w = cols` and `y = 2k` for cell `k` |
| `Sync.LayoutsFor` | src/utils/layoutSync.ts:239-241 | a set built from an order has every breakpoint as a key, and each breakpoint lists the order's ids |
| `Sync.InitialOrder` | src/utils/layoutSync.ts:219 | `ITEMS.map(String)` is `["0", "1", "2", "3", "4", "5"]` |
| `Sync.SyncAllLayouts` | src/utils/layoutSync.ts:232-244 | the result has exactly the five breakpoints, each built from the changed layout's reading order; every breakpoint reads in that order; the input's optional fields are dropped |
| `Sync.GenerateInitialLayouts` | src/utils/layoutSync.ts:218-227 | every breakpoint is built from `"0".."5"` and reads in that order |
| `Sync.LayoutsForConsistent` | src/utils/layoutSync.ts:232-244 | cross-breakpoint consistency: every breakpoint of a synced set has the same reading order, namely the one it was built from |
| `Sync.LayoutsForInBounds` | src/utils/layoutSync.ts:202-213 | every cell of a synced set lies inside its own breakpoint's grid |
| `Sync.SyncIdempotent` | src/utils/layoutSync.ts:232-244 | syncing again from any breakpoint of a synced set gives back the same set |
| `Sync.LayoutsForInjective` | src/utils/layoutSync.ts:232-244 | two synced sets are equal exactly when their reading orders are equal |
| `Sync.InitialLgGeometry` | src/utils/layoutSync.ts:218-227 | at `lg`, ids 0..5 get `(x,y,w,h)` = `(0,0,4,2), (4,0,4,2), (8,0,4,2), (0,2,4,2), (4,2,4,2), (8,2,4,2)` |
| `Sync.InitialIsSynced` | src/utils/layoutSync.ts:218-244 | the initial set is a fixed point: syncing from any of its breakpoints reproduces it |

## Left out

- None of `src/App.tsx`, `src/components/SyncedGridLayout.tsx`, `src/components/GridItem.tsx` or `src/context/LayoutContext.tsx` calls `syncAllLayouts`. The grid component reports every layout change to `updateLayout` in `src/context/LayoutContext.tsx:59-95`, which merges the reported layouts into the stored ones and then takes one of two branches. In the web branch (`src/context/LayoutContext.tsx:76-89`), `lg`, `md` and `sm` get the current layout unchanged, and `xs` and `xxs` get `mapWebToMobile(currentLayout, …)`. In the mobile branch (`src/context/LayoutContext.tsx:64-75`), only the current breakpoint gets the current layout, and `lg`, `md` and `sm` get `mapMobileToWeb(currentLayout, …)`; the other mobile breakpoint is not rebuilt, so after a drag at `xs` the `xxs` entry keeps whatever order the merge left it with. `mapMobileToWeb` and `mapWebToMobile` are not defined in `src/utils/layoutSync.ts` and are not part of this model, so what the web entries show after a mobile drag, and the mobile entries after a web drag, is not determined here. The model covers `syncAllLayouts` as written, not that call path.
- Lines 1-135 of `src/utils/layoutSync.ts` are an older version that is commented out. They are not live code.
- `saveLayoutToStorage` and `loadLayoutFromStorage` (`src/utils/layoutSync.ts:250-269`) are left out. They are browser storage I/O, JSON encoding, window events and console warnings.
- `src/context/LayoutContext.tsx` is left out. It is React state and event-listener plumbing. Its `updateLayout` calls `mapMobileToWeb` and `mapWebToMobile`, which `layoutSync.ts` does not define. Its equality gate is a library deep-equality call.
- The UI components `SyncedGridLayout.tsx`, `GridItem.tsx` and `App.tsx` are left out. They are rendering wrappers around grid and class-name libraries that are not part of this model.
- Cell coordinates are JavaScript numbers, which are floating point. The model uses mathematical integers. It does not cover fractional positions, `NaN` in the comparator, or a fractional column count.
- The `[key: string]: any` catch-all of the `Layout` type is not modelled. The named optional fields (`minW`, `maxW`, `minH`, `maxH`, `static`, `isDraggable`, `isResizable`) are. `static` is called `isStatic`, because `static` is a Dafny keyword.
- Layout sets are keyed by a datatype, not by strings. The insertion order of an object's keys is not modelled.
- The unused `lodash` import at `src/utils/layoutSync.ts:137` is not modelled.
