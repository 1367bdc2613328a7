/** Types and grid configuration of the layout-synchronisation core:
    the cell record, the five breakpoints with their column counts and
    pixel thresholds, the row height and the fixed item set. */
module Grid {

  datatype Option<T> = None | Some(value: T)

  /** One cell of a grid layout: the item id `i`, the position `(x, y)` and
      the span `(w, h)` in grid units, and the optional per-cell constraints
      and flags a layout handed in by the grid component may carry. */
  datatype Cell = Cell(
    i: string,
    x: int,
    y: int,
    w: int,
    h: int,
    minW: Option<int>,
    maxW: Option<int>,
    minH: Option<int>,
    maxH: Option<int>,
    isStatic: Option<bool>,
    isDraggable: Option<bool>,
    isResizable: Option<bool>)

  /** A cell with none of the optional fields set. */
  predicate Bare(c: Cell) {
    && c.minW.None? && c.maxW.None? && c.minH.None? && c.maxH.None?
    && c.isStatic.None? && c.isDraggable.None? && c.isResizable.None?
  }

  /** The object literal `{ i, x, y, w, h }`: a cell with only the five required fields. */
  function Plain(i: string, x: int, y: int, w: int, h: int): Cell {
    Cell(i, x, y, w, h, None, None, None, None, None, None, None)
  }

  datatype Breakpoint = Lg | Md | Sm | Xs | Xxs

  /** The key under which a breakpoint's layout is stored. */
  function Name(bp: Breakpoint): string {
    match bp
    case Lg => "lg"
    case Md => "md"
    case Sm => "sm"
    case Xs => "xs"
    case Xxs => "xxs"
  }

  /** `BREAKPOINTS`: the smallest container width, in pixels, at which a breakpoint applies. */
  function Threshold(bp: Breakpoint): (t: nat)
    ensures t == 0 <==> bp == Xxs
  {
    match bp
    case Lg => 1200
    case Md => 996
    case Sm => 768
    case Xs => 480
    case Xxs => 0
  }

  /** `COLS`: the number of grid columns at a breakpoint. */
  function Cols(bp: Breakpoint): (c: nat)
    ensures 2 <= c <= 12
  {
    match bp
    case Lg => 12
    case Md => 10
    case Sm => 6
    case Xs => 4
    case Xxs => 2
  }

  /** The breakpoints in the order in which `Object.entries(COLS)` enumerates them. */
  function Breakpoints(): (bps: seq<Breakpoint>)
    ensures |bps| == 5
    ensures forall j, k :: 0 <= j < k < |bps| ==> bps[j] != bps[k]
  {
    [Lg, Md, Sm, Xs, Xxs]
  }

  /** Every breakpoint is one of `Breakpoints()`. */
  lemma BreakpointsComplete()
    ensures forall bp :: bp in Breakpoints()
  {
    forall bp
      ensures bp in Breakpoints()
    {
      match bp {
        case Lg => assert Breakpoints()[0] == bp;
        case Md => assert Breakpoints()[1] == bp;
        case Sm => assert Breakpoints()[2] == bp;
        case Xs => assert Breakpoints()[3] == bp;
        case Xxs => assert Breakpoints()[4] == bp;
      }
    }
  }

  const ITEM_HEIGHT: int := 2

  /** The fixed item set, as numbers; their ids are the decimal strings. */
  const ITEMS: seq<nat> := [0, 1, 2, 3, 4, 5]

  /** A layout set: one ordered list of cells per breakpoint. */
  type Layouts = map<Breakpoint, seq<Cell>>

  /** The configuration is well formed: walking the breakpoints from the largest
      to the smallest, thresholds strictly fall, column counts never rise and are
      positive, and every breakpoint has its own key. */
  lemma ConfigWellFormed()
    ensures forall j, k :: 0 <= j < k < |Breakpoints()| ==>
      Threshold(Breakpoints()[j]) > Threshold(Breakpoints()[k]) &&
      Cols(Breakpoints()[j]) >= Cols(Breakpoints()[k]) &&
      Name(Breakpoints()[j]) != Name(Breakpoints()[k])
    ensures forall bp :: Cols(bp) >= 1
  {
  }

  /** `String(n)` for a natural number: its decimal numeral, which spells `n`
      and starts with `0` only when it is `"0"`. */
  function DecimalString(n: nat): (s: string)
    ensures |s| >= 1
    ensures forall k :: 0 <= k < |s| ==> '0' <= s[k] <= '9'
    ensures NumeralValue(s) == n
    ensures s[0] == '0' <==> n == 0
    ensures n == 0 ==> s == "0"
  {
    if n < 10 then [Digit(n)]
    else
      var s := DecimalString(n / 10) + [Digit(n % 10)];
      assert s[..|s| - 1] == DecimalString(n / 10);
      s
  }

  /** The number a string of decimal digits spells, most significant digit first. */
  function NumeralValue(s: string): nat
    requires forall k :: 0 <= k < |s| ==> '0' <= s[k] <= '9'
  {
    if s == [] then 0
    else NumeralValue(s[..|s| - 1]) * 10 + (s[|s| - 1] as int - '0' as int)
  }

  function Digit(d: nat): (c: char)
    requires d < 10
  {
    ('0' as int + d) as char
  }
}
