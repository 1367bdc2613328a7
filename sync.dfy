/** `syncAllLayouts` and `generateInitialLayouts`: a full layout set built
    from one reading order, the same order at every breakpoint. */
module Sync {
  import opened Grid
  import opened ReadingOrder
  import opened Builder

  /** The layout set that shows `order` at every breakpoint: each breakpoint's
      geometry is built from `order` at that breakpoint's column count. */
  function LayoutsFor(order: seq<string>): (layouts: Layouts)
    ensures forall bp :: bp in layouts && Ids(layouts[bp]) == order
  {
    BreakpointsComplete();
    map bp | bp in Breakpoints() :: BuildLayout(order, Cols(bp))
  }

  /** `ITEMS.map(String)`: the ids of the fixed item set. */
  function InitialOrder(): (order: seq<string>)
    ensures order == ["0", "1", "2", "3", "4", "5"]
  {
    seq(|ITEMS|, k requires 0 <= k < |ITEMS| => DecimalString(ITEMS[k]))
  }

  /** `syncAllLayouts(changedLayout)`: takes the reading order of the changed
      breakpoint's cells and rebuilds every breakpoint's geometry from it, so
      that every breakpoint shows that reading order and no cell keeps an
      optional field of the input. */
  method SyncAllLayouts(changedLayout: seq<Cell>) returns (newLayouts: Layouts)
    ensures newLayouts == LayoutsFor(Order(changedLayout))
    ensures forall bp :: bp in newLayouts && Order(newLayouts[bp]) == Order(changedLayout)
    ensures forall bp, c :: bp in newLayouts && c in newLayouts[bp] ==> Bare(c)
  {
    var orderedIds := Order(changedLayout);
    newLayouts := map[];
    var bps := Breakpoints();
    var n := 0;
    while n < |bps|
      invariant 0 <= n <= |bps|
      invariant forall bp :: bp in newLayouts <==> bp in bps[..n]
      invariant forall bp :: bp in newLayouts ==> newLayouts[bp] == BuildLayout(orderedIds, Cols(bp))
    {
      newLayouts := newLayouts[bps[n] := BuildLayout(orderedIds, Cols(bps[n]))];
      n := n + 1;
    }
    assert bps[..n] == bps;
    LayoutsForConsistent(orderedIds);
  }

  /** `generateInitialLayouts()`: the ids "0" to "5", in that order, at every breakpoint. */
  method GenerateInitialLayouts() returns (layouts: Layouts)
    ensures layouts == LayoutsFor(["0", "1", "2", "3", "4", "5"])
    ensures forall bp :: bp in layouts && Order(layouts[bp]) == ["0", "1", "2", "3", "4", "5"]
  {
    var order := InitialOrder();
    layouts := map[];
    var bps := Breakpoints();
    var n := 0;
    while n < |bps|
      invariant 0 <= n <= |bps|
      invariant forall bp :: bp in layouts <==> bp in bps[..n]
      invariant forall bp :: bp in layouts ==> layouts[bp] == BuildLayout(order, Cols(bp))
    {
      layouts := layouts[bps[n] := BuildLayout(order, Cols(bps[n]))];
      n := n + 1;
    }
    assert bps[..n] == bps;
    LayoutsForConsistent(order);
  }

  /** Cross-breakpoint consistency: every breakpoint of `LayoutsFor(order)`
      reads in `order`. */
  lemma LayoutsForConsistent(order: seq<string>)
    ensures forall bp :: Order(LayoutsFor(order)[bp]) == order
  {
    forall bp
      ensures Order(LayoutsFor(order)[bp]) == order
    {
      RoundTrip(order, Cols(bp));
    }
  }

  /** Every cell of `LayoutsFor(order)` lies inside its breakpoint's grid. */
  lemma LayoutsForInBounds(order: seq<string>)
    ensures forall bp, c :: c in LayoutsFor(order)[bp] ==>
      0 <= c.x && 0 <= c.y && 1 <= c.w && c.x + c.w <= Cols(bp)
  {
    forall bp
      ensures forall c :: c in LayoutsFor(order)[bp] ==> 0 <= c.x && 0 <= c.y && 1 <= c.w && c.x + c.w <= Cols(bp)
    {
      assert LayoutsFor(order)[bp] == BuildLayout(order, Cols(bp));
      BuildLayoutInBounds(order, Cols(bp));
    }
  }

  /** Idempotence: syncing from any breakpoint of a synced set gives that set back. */
  lemma SyncIdempotent(changedLayout: seq<Cell>, bp: Breakpoint)
    ensures LayoutsFor(Order(LayoutsFor(Order(changedLayout))[bp])) == LayoutsFor(Order(changedLayout))
  {
    LayoutsForConsistent(Order(changedLayout));
  }

  /** Two layout sets built from orders agree exactly when the orders agree. */
  lemma LayoutsForInjective(order1: seq<string>, order2: seq<string>)
    ensures LayoutsFor(order1) == LayoutsFor(order2) <==> order1 == order2
  {
    if LayoutsFor(order1) == LayoutsFor(order2) {
      assert Ids(LayoutsFor(order1)[Lg]) == order1;
    }
  }

  /** At `lg` (12 columns) the initial layout puts ids "0" to "5" in two rows of
      three cells, each 4 wide and 2 high. */
  lemma InitialLgGeometry()
    ensures var lg := LayoutsFor(["0", "1", "2", "3", "4", "5"])[Lg];
      |lg| == 6 &&
      lg[0] == Plain("0", 0, 0, 4, 2) && lg[1] == Plain("1", 4, 0, 4, 2) &&
      lg[2] == Plain("2", 8, 0, 4, 2) && lg[3] == Plain("3", 0, 2, 4, 2) &&
      lg[4] == Plain("4", 4, 2, 4, 2) && lg[5] == Plain("5", 8, 2, 4, 2)
  {
    var order := ["0", "1", "2", "3", "4", "5"];
    assert LayoutsFor(order)[Lg] == BuildLayout(order, 12);
    assert ItemsPerRow(12) == 3 && ItemWidth(12) == 4;
  }

  /** The initial layout set is already synchronised: syncing from any of its
      breakpoints reproduces it. */
  lemma InitialIsSynced(bp: Breakpoint)
    ensures LayoutsFor(Order(LayoutsFor(InitialOrder())[bp])) == LayoutsFor(InitialOrder())
  {
    LayoutsForConsistent(InitialOrder());
  }
}
