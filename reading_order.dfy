/** `sortLayout`: the reading order of a layout (top to bottom, then left to
    right), computed on a copy of the input by a stable sort. */
module ReadingOrder {
  import opened Grid

  /** The comparator handed to `sort`: negative exactly when `a` is on a higher
      row than `b`, or on the same row and further left; zero exactly when the
      two share a position. */
  function Compare(a: Cell, b: Cell): (r: int)
    ensures r < 0 <==> a.y < b.y || (a.y == b.y && a.x < b.x)
    ensures r == 0 <==> Key(a) == Key(b)
  {
    if a.y != b.y then a.y - b.y else a.x - b.x
  }

  /** Swapping the arguments of the comparator flips its sign. */
  lemma CompareAntisymmetric(a: Cell, b: Cell)
    ensures Compare(b, a) == -Compare(a, b)
  {
  }

  /** No cell is followed by one that the comparator puts strictly before it. */
  predicate Sorted(s: seq<Cell>) {
    forall j, k :: 0 <= j < k < |s| ==> Compare(s[j], s[k]) <= 0
  }

  /** The sort key: two cells compare equal exactly when their keys are equal. */
  function Key(c: Cell): (int, int) {
    (c.y, c.x)
  }

  /** The cells of `s` whose key is `key`, in the order in which `s` holds them. */
  function WithKey(s: seq<Cell>, key: (int, int)): seq<Cell> {
    if s == [] then []
    else (if Key(s[0]) == key then [s[0]] else []) + WithKey(s[1..], key)
  }

  /** Inserts `c` in front of the first cell it does not compare after. */
  function Insert(c: Cell, s: seq<Cell>): (r: seq<Cell>)
    ensures |r| == |s| + 1 && multiset(r) == multiset(s) + multiset{c}
  {
    if s == [] || Compare(c, s[0]) <= 0 then [c] + s
    else
      assert s == [s[0]] + s[1..];
      [s[0]] + Insert(c, s[1..])
  }

  /** `sortLayout`: a sorted copy of `layout`; the input value is left as it was. */
  function SortLayout(layout: seq<Cell>): (r: seq<Cell>)
    ensures |r| == |layout| && multiset(r) == multiset(layout)
  {
    if layout == [] then []
    else
      assert layout == [layout[0]] + layout[1..];
      Insert(layout[0], SortLayout(layout[1..]))
  }

  /** The ids of a list of cells, in list order (`.map((l) => l.i)`). */
  function Ids(cells: seq<Cell>): (ids: seq<string>)
    ensures |ids| == |cells|
    ensures forall k :: 0 <= k < |cells| ==> ids[k] == cells[k].i
  {
    seq(|cells|, k requires 0 <= k < |cells| => cells[k].i)
  }

  /** The reading order of a layout: the ids of its sorted copy. Every id of the
      layout appears in it exactly as often as in the layout. */
  function Order(layout: seq<Cell>): (order: seq<string>)
    ensures |order| == |layout| && multiset(order) == multiset(Ids(layout))
  {
    SortLayoutIds(layout);
    Ids(SortLayout(layout))
  }

  lemma IdsCons(c: Cell, s: seq<Cell>)
    ensures Ids([c] + s) == [c.i] + Ids(s)
  {
  }

  lemma {:induction false} InsertIds(c: Cell, s: seq<Cell>)
    ensures multiset(Ids(Insert(c, s))) == multiset(Ids(s)) + multiset{c.i}
  {
    if s != [] && Compare(c, s[0]) > 0 {
      InsertIds(c, s[1..]);
      IdsCons(s[0], Insert(c, s[1..]));
      IdsCons(s[0], s[1..]);
      assert s == [s[0]] + s[1..];
    } else {
      IdsCons(c, s);
    }
  }

  /** Sorting moves cells but neither adds nor drops an id. */
  lemma {:induction false} SortLayoutIds(layout: seq<Cell>)
    ensures multiset(Ids(SortLayout(layout))) == multiset(Ids(layout))
  {
    if layout != [] {
      SortLayoutIds(layout[1..]);
      InsertIds(layout[0], SortLayout(layout[1..]));
      IdsCons(layout[0], layout[1..]);
      assert layout == [layout[0]] + layout[1..];
    }
  }

  lemma {:induction false} InsertSorted(c: Cell, s: seq<Cell>)
    requires Sorted(s)
    ensures Sorted(Insert(c, s))
  {
    if s != [] && Compare(c, s[0]) > 0 {
      var t := Insert(c, s[1..]);
      InsertSorted(c, s[1..]);
      forall k | 0 <= k < |t|
        ensures Compare(s[0], t[k]) <= 0
      {
        assert t[k] in multiset(t);
        assert t[k] == c || t[k] in s[1..];
      }
    }
  }

  /** `sortLayout` orders by `y`, then by `x`. */
  lemma {:induction false} SortLayoutSorted(layout: seq<Cell>)
    ensures Sorted(SortLayout(layout))
  {
    if layout != [] {
      SortLayoutSorted(layout[1..]);
      InsertSorted(layout[0], SortLayout(layout[1..]));
    }
  }

  lemma WithKeyCons(e: Cell, s: seq<Cell>, key: (int, int))
    ensures WithKey([e] + s, key) == (if Key(e) == key then [e] else []) + WithKey(s, key)
  {
    assert ([e] + s)[1..] == s;
  }

  lemma {:induction false} WithKeyMember(s: seq<Cell>, key: (int, int), e: Cell)
    ensures e in WithKey(s, key) <==> e in s && Key(e) == key
  {
    if s != [] {
      WithKeyMember(s[1..], key, e);
      assert s == [s[0]] + s[1..];
    }
  }

  /** Inserting `c` keeps it in front of every cell with the same key. */
  lemma {:induction false} InsertStable(c: Cell, s: seq<Cell>, key: (int, int))
    ensures WithKey(Insert(c, s), key) == WithKey([c] + s, key)
  {
    if s != [] && Compare(c, s[0]) > 0 {
      var p := if Key(c) == key then [c] else [];
      var q := if Key(s[0]) == key then [s[0]] else [];
      assert Key(c) != Key(s[0]);
      assert p + q == q + p;
      assert s == [s[0]] + s[1..];
      calc {
        WithKey(Insert(c, s), key);
        WithKey([s[0]] + Insert(c, s[1..]), key);
        { WithKeyCons(s[0], Insert(c, s[1..]), key); }
        q + WithKey(Insert(c, s[1..]), key);
        { InsertStable(c, s[1..], key); }
        q + WithKey([c] + s[1..], key);
        { WithKeyCons(c, s[1..], key); }
        q + (p + WithKey(s[1..], key));
        (p + q) + WithKey(s[1..], key);
        p + (q + WithKey(s[1..], key));
        { WithKeyCons(s[0], s[1..], key); }
        p + WithKey(s, key);
        { WithKeyCons(c, s, key); }
        WithKey([c] + s, key);
      }
    }
  }

  /** `sortLayout` is stable: the cells that share one `(y, x)` position come
      out in the order in which they went in. */
  lemma {:induction false} SortLayoutStable(layout: seq<Cell>, key: (int, int))
    ensures WithKey(SortLayout(layout), key) == WithKey(layout, key)
  {
    if layout != [] {
      SortLayoutStable(layout[1..], key);
      InsertStable(layout[0], SortLayout(layout[1..]), key);
      WithKeyCons(layout[0], SortLayout(layout[1..]), key);
      WithKeyCons(layout[0], layout[1..], key);
      assert layout == [layout[0]] + layout[1..];
    }
  }

  /** Two sorted lists that hold the same cells at every position, in the same
      order, are the same list. */
  lemma {:induction false} SortedArrangementUnique(r1: seq<Cell>, r2: seq<Cell>)
    requires Sorted(r1) && Sorted(r2)
    requires forall key :: WithKey(r1, key) == WithKey(r2, key)
    ensures r1 == r2
    decreases |r1|
  {
    if r1 == [] {
      if r2 != [] {
        WithKeyMember(r2, Key(r2[0]), r2[0]);
        assert false;
      }
    } else if r2 == [] {
      WithKeyMember(r1, Key(r1[0]), r1[0]);
      assert false;
    } else {
      var a, b := r1[0], r2[0];
      WithKeyMember(r1, Key(a), a);
      WithKeyMember(r2, Key(a), a);
      WithKeyMember(r2, Key(b), b);
      WithKeyMember(r1, Key(b), b);
      var m :| 0 <= m < |r2| && r2[m] == a;
      var n :| 0 <= n < |r1| && r1[n] == b;
      assert Compare(b, a) <= 0 && Compare(a, b) <= 0;
      assert Key(a) == Key(b);
      assert WithKey(r1, Key(a))[0] == a;
      assert WithKey(r2, Key(a))[0] == b;
      assert a == b;
      forall key
        ensures WithKey(r1[1..], key) == WithKey(r2[1..], key)
      {
        var p := if Key(a) == key then [a] else [];
        assert r1 == [a] + r1[1..] && r2 == [a] + r2[1..];
        WithKeyCons(a, r1[1..], key);
        WithKeyCons(a, r2[1..], key);
        assert WithKey(r1[1..], key) == (p + WithKey(r1[1..], key))[|p|..];
        assert WithKey(r2[1..], key) == (p + WithKey(r2[1..], key))[|p|..];
      }
      SortedArrangementUnique(r1[1..], r2[1..]);
      assert r1 == [a] + r1[1..] && r2 == [b] + r2[1..];
    }
  }

  /** Whatever stable sort the engine uses, its result is the model's: a sorted
      list that keeps the relative order of equal cells can only be `SortLayout(layout)`. */
  lemma SortLayoutCharacterised(layout: seq<Cell>, r: seq<Cell>)
    requires Sorted(r)
    requires forall key :: WithKey(r, key) == WithKey(layout, key)
    ensures r == SortLayout(layout)
  {
    SortLayoutSorted(layout);
    forall key
      ensures WithKey(r, key) == WithKey(SortLayout(layout), key)
    {
      SortLayoutStable(layout, key);
    }
    SortedArrangementUnique(r, SortLayout(layout));
  }

  /** A layout already in reading order comes back from `sortLayout` unchanged. */
  lemma SortLayoutOfSorted(layout: seq<Cell>)
    requires Sorted(layout)
    ensures SortLayout(layout) == layout
  {
    SortLayoutCharacterised(layout, layout);
  }
}
