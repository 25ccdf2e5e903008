/** Greedy column packing of legend elements.  Heights are kept in tenths of a
    line, exactly: a title is 14 (1.4 lines), an item 10 (1.0 line).  A column
    holds `max_altura // esp_linea` lines.  An element that would take the
    current column over that capacity starts a new column. */
module Packing {
  import opened Wrappers
  import opened LegendElements

  const TitleTenths := 14
  const ItemTenths := 10

  function Height(e: Element): (h: nat)
    ensures ItemTenths <= h <= TitleTenths
  {
    if e.Title? then TitleTenths else ItemTenths
  }

  /** Total height of a column, in tenths of a line. */
  function ColumnHeight(col: seq<Element>): nat {
    if col == [] then 0 else ColumnHeight(col[..|col| - 1]) + Height(col[|col| - 1])
  }

  function Flatten(cols: seq<seq<Element>>): seq<Element> {
    if cols == [] then [] else Flatten(cols[..|cols| - 1]) + cols[|cols| - 1]
  }

  /** `max_lineas`, in tenths of a line. */
  function Capacity(maxHeight: int, lineHeight: nat): int
    requires lineHeight > 0
  {
    10 * (maxHeight / lineHeight)
  }

  function AtLeastOne(n: int): nat {
    if n < 1 then 1 else n
  }

  /** The packer's state: the columns so far and the height used in the last. */
  datatype Fill = Fill(columns: seq<seq<Element>>, used: int)

  /** Place `e` at the top of a new column. */
  function Open(f: Fill, e: Element): (r: Fill)
    ensures |r.columns| == |f.columns| + 1
  {
    Fill(f.columns + [[e]], Height(e))
  }

  /** Place `e` under the last element of the last column. */
  function Extend(f: Fill, e: Element): (r: Fill)
    requires f.columns != []
    ensures |r.columns| == |f.columns|
  {
    Fill(f.columns[..|f.columns| - 1] + [f.columns[|f.columns| - 1] + [e]], f.used + Height(e))
  }

  /** Greedy filling with no limit on the number of columns. */
  function Greedy(elems: seq<Element>, cap: int): (f: Fill)
    ensures |f.columns| >= 1
  {
    if elems == [] then Fill([[]], 0)
    else
      var f := Greedy(elems[..|elems| - 1], cap);
      var e := elems[|elems| - 1];
      if f.used + Height(e) > cap then Open(f, e) else Extend(f, e)
  }

  /** The final packer: once `maxCols` columns exist, every further element
      goes into the last one. */
  function Capped(elems: seq<Element>, cap: int, maxCols: int): (f: Fill)
    ensures |f.columns| >= 1
  {
    if elems == [] then Fill([[]], 0)
    else
      var f := Capped(elems[..|elems| - 1], cap, maxCols);
      var e := elems[|elems| - 1];
      if f.used + Height(e) > cap && |f.columns| < maxCols then Open(f, e) else Extend(f, e)
  }

  lemma {:induction false} FlattenAppend(cols: seq<seq<Element>>, col: seq<Element>)
    ensures Flatten(cols + [col]) == Flatten(cols) + col
  {
    assert (cols + [col])[..|cols|] == cols;
  }

  lemma FlattenSingle(col: seq<Element>)
    ensures Flatten([col]) == col
  {
    assert [col][..0] == [];
  }

  lemma {:induction false} ColumnHeightAppend(col: seq<Element>, e: Element)
    ensures ColumnHeight(col + [e]) == ColumnHeight(col) + Height(e)
  {
    assert (col + [e])[..|col|] == col;
  }

  /** Appending to the last column appends to the flattened sequence. */
  lemma {:induction false} FlattenExtendLast(cols: seq<seq<Element>>, e: Element)
    requires cols != []
    ensures Flatten(cols[..|cols| - 1] + [cols[|cols| - 1] + [e]]) == Flatten(cols) + [e]
  {
    var init := cols[..|cols| - 1];
    FlattenAppend(init, cols[|cols| - 1] + [e]);
    assert init + [cols[|cols| - 1]] == cols;
    FlattenAppend(init, cols[|cols| - 1]);
  }

  /** Greedy packing keeps every element, in order, and tracks the height of
      its last column. */
  lemma {:induction false} GreedyKeepsOrder(elems: seq<Element>, cap: int)
    ensures Flatten(Greedy(elems, cap).columns) == elems
    ensures Greedy(elems, cap).used == ColumnHeight(Greedy(elems, cap).columns[|Greedy(elems, cap).columns| - 1])
  {
    if elems == [] {
      FlattenSingle([]);
    } else {
      var init := elems[..|elems| - 1];
      var e := elems[|elems| - 1];
      GreedyKeepsOrder(init, cap);
      var f := Greedy(init, cap);
      if f.used + Height(e) > cap {
        FlattenAppend(f.columns, [e]);
        ColumnHeightAppend([], e);
        assert [] + [e] == [e];
      } else {
        FlattenExtendLast(f.columns, e);
        ColumnHeightAppend(f.columns[|f.columns| - 1], e);
      }
      assert init + [e] == elems;
    }
  }

  /** With room for at least a title, no greedy column exceeds the capacity. */
  lemma {:induction false} GreedyColumnsFit(elems: seq<Element>, cap: int)
    requires cap >= TitleTenths
    ensures forall k :: 0 <= k < |Greedy(elems, cap).columns| ==> ColumnHeight(Greedy(elems, cap).columns[k]) <= cap
  {
    if elems != [] {
      var init := elems[..|elems| - 1];
      var e := elems[|elems| - 1];
      GreedyColumnsFit(init, cap);
      GreedyKeepsOrder(init, cap);
      var f := Greedy(init, cap);
      if f.used + Height(e) > cap {
        ColumnHeightAppend([], e);
        assert [] + [e] == [e];
      } else {
        ColumnHeightAppend(f.columns[|f.columns| - 1], e);
      }
    }
  }

  /** Greedy packing never takes columns away as more elements arrive. */
  lemma {:induction false} GreedyMonotone(elems: seq<Element>, cap: int, n: nat)
    requires n <= |elems|
    ensures |Greedy(elems[..n], cap).columns| <= |Greedy(elems, cap).columns|
    decreases |elems| - n
  {
    if n < |elems| {
      var init := elems[..|elems| - 1];
      assert init[..n] == elems[..n];
      GreedyMonotone(init, cap, n);
    } else {
      assert elems[..n] == elems;
    }
  }

  /** The relation between the final packer and greedy packing on the same
      input: identical while greedy needs at most `maxCols` columns; after
      that, the first `maxCols - 1` columns agree and the last capped column
      holds everything greedy would have put in the columns beyond. */
  ghost predicate Overflowed(g: Fill, c: Fill, maxCols: nat)
    requires maxCols >= 1
  {
    if |g.columns| <= maxCols then c == g
    else
      && |c.columns| == maxCols
      && c.columns[..maxCols - 1] == g.columns[..maxCols - 1]
      && c.columns[maxCols - 1] == Flatten(g.columns[maxCols - 1..])
  }

  /** Greedy opens column `maxCols + 1`; the final packer extends its last. */
  lemma OverflowStarts(g: Fill, e: Element, maxCols: nat)
    requires maxCols >= 1 && |g.columns| == maxCols
    ensures Overflowed(Open(g, e), Extend(g, e), maxCols)
  {
    var last := g.columns[maxCols - 1];
    assert Open(g, e).columns[..maxCols - 1] == g.columns[..maxCols - 1];
    assert Open(g, e).columns[maxCols - 1..] == [last] + [[e]];
    FlattenAppend([last], [e]);
    FlattenSingle(last);
  }

  /** Past the limit, a new greedy column lands in the last capped column. */
  lemma OverflowOpens(g: Fill, c: Fill, e: Element, maxCols: nat)
    requires maxCols >= 1 && |g.columns| > maxCols && Overflowed(g, c, maxCols)
    ensures Overflowed(Open(g, e), Extend(c, e), maxCols)
  {
    assert Open(g, e).columns[..maxCols - 1] == g.columns[..maxCols - 1];
    assert Open(g, e).columns[maxCols - 1..] == g.columns[maxCols - 1..] + [[e]];
    FlattenAppend(g.columns[maxCols - 1..], [e]);
  }

  /** Past the limit, extending greedy's last column extends the capped one. */
  lemma OverflowExtends(g: Fill, c: Fill, e: Element, maxCols: nat)
    requires maxCols >= 1 && |g.columns| > maxCols && Overflowed(g, c, maxCols)
    ensures Overflowed(Extend(g, e), Extend(c, e), maxCols)
  {
    var tail := g.columns[maxCols - 1..];
    assert Extend(g, e).columns[..maxCols - 1] == g.columns[..maxCols - 1];
    assert Extend(g, e).columns[maxCols - 1..] == tail[..|tail| - 1] + [tail[|tail| - 1] + [e]];
    FlattenExtendLast(tail, e);
  }

  lemma {:induction false} CappedOverflows(elems: seq<Element>, cap: int, maxCols: nat)
    requires maxCols >= 1
    ensures Overflowed(Greedy(elems, cap), Capped(elems, cap, maxCols), maxCols)
  {
    if elems != [] {
      var init := elems[..|elems| - 1];
      var e := elems[|elems| - 1];
      CappedOverflows(init, cap, maxCols);
      var g := Greedy(init, cap);
      var c := Capped(init, cap, maxCols);
      var open := g.used + Height(e) > cap;
      if |g.columns| < maxCols {
        assert c == g;
      } else if |g.columns| == maxCols {
        assert c == g;
        if open {
          OverflowStarts(g, e, maxCols);
        }
      } else if open {
        OverflowOpens(g, c, e, maxCols);
      } else {
        OverflowExtends(g, c, e, maxCols);
      }
    }
  }

  lemma {:induction false} FlattenSplit(cols: seq<seq<Element>>, k: nat)
    requires k <= |cols|
    ensures Flatten(cols) == Flatten(cols[..k]) + Flatten(cols[k..])
  {
    if k == |cols| {
      assert cols[..k] == cols;
      assert cols[k..] == [];
    } else {
      var init := cols[..|cols| - 1];
      var last := cols[|cols| - 1];
      FlattenSplit(init, k);
      assert cols[..k] == init[..k];
      assert cols[k..] == init[k..] + [last];
      FlattenAppend(init[k..], last);
    }
  }

  /** The final packer keeps every element, in order, never exceeds `maxCols`
      columns, equals greedy packing when that fits, and otherwise keeps
      greedy's first `maxCols - 1` columns and pushes the rest into its last. */
  lemma CappedProperties(elems: seq<Element>, cap: int, maxCols: nat)
    requires maxCols >= 1
    ensures Flatten(Capped(elems, cap, maxCols).columns) == elems
    ensures |Capped(elems, cap, maxCols).columns| <= maxCols
    ensures |Greedy(elems, cap).columns| <= maxCols ==> Capped(elems, cap, maxCols) == Greedy(elems, cap)
    ensures |Greedy(elems, cap).columns| > maxCols ==>
              && |Capped(elems, cap, maxCols).columns| == maxCols
              && Capped(elems, cap, maxCols).columns[..maxCols - 1] == Greedy(elems, cap).columns[..maxCols - 1]
              && Capped(elems, cap, maxCols).columns[maxCols - 1] == Flatten(Greedy(elems, cap).columns[maxCols - 1..])
  {
    var g := Greedy(elems, cap);
    var c := Capped(elems, cap, maxCols);
    CappedOverflows(elems, cap, maxCols);
    GreedyKeepsOrder(elems, cap);
    if |g.columns| > maxCols {
      FlattenSplit(g.columns, maxCols - 1);
      FlattenSplit(c.columns, maxCols - 1);
      assert c.columns[maxCols - 1..] == [c.columns[maxCols - 1]];
      FlattenSingle(c.columns[maxCols - 1]);
    }
  }

  /** Opening an empty column and then appending equals `Open`. */
  lemma OpenThenAppend(cols: seq<seq<Element>>, e: Element)
    ensures (cols + [[]])[..|cols|] + [(cols + [[]])[|cols|] + [e]] == cols + [[e]]
  {
    assert (cols + [[]])[..|cols|] == cols;
    assert [] + [e] == [e];
  }

  /** `dividir_en_columnas`: greedy packing into at most `maxCols` columns, or
      None as soon as one more column would be needed. */
  method Split(elems: seq<Element>, maxHeight: int, lineHeight: nat, maxCols: int)
    returns (r: Option<seq<seq<Element>>>)
    requires lineHeight > 0
    ensures var g := Greedy(elems, Capacity(maxHeight, lineHeight));
            r == if |g.columns| <= AtLeastOne(maxCols) then Some(g.columns) else None
  {
    var columns: seq<seq<Element>> := [[]];
    var used := 0;
    var maxLines := maxHeight / lineHeight;
    ghost var cap := Capacity(maxHeight, lineHeight);
    var i := 0;
    while i < |elems|
      invariant 0 <= i <= |elems|
      invariant Fill(columns, used) == Greedy(elems[..i], cap)
      invariant |columns| <= AtLeastOne(maxCols)
    {
      assert elems[..i + 1][..i] == elems[..i];
      var h := Height(elems[i]);
      if used + h > 10 * maxLines {
        if |columns| < maxCols {
          OpenThenAppend(columns, elems[i]);
          columns := columns + [[]];
          used := 0;
        } else {
          GreedyMonotone(elems, cap, i + 1);
          return None;
        }
      }
      columns := columns[..|columns| - 1] + [columns[|columns| - 1] + [elems[i]]];
      used := used + h;
      i := i + 1;
    }
    assert elems[..|elems|] == elems;
    return Some(columns);
  }

  /** `dividir_en_columnas_final`: the same filling, but once `maxCols` columns
      exist the rest goes into the last column. */
  method SplitFinal(elems: seq<Element>, maxHeight: int, lineHeight: nat, maxCols: int)
    returns (columns: seq<seq<Element>>)
    requires lineHeight > 0
    ensures columns == Capped(elems, Capacity(maxHeight, lineHeight), maxCols).columns
  {
    columns := [[]];
    var used := 0;
    var maxLines := maxHeight / lineHeight;
    ghost var cap := Capacity(maxHeight, lineHeight);
    var i := 0;
    while i < |elems|
      invariant 0 <= i <= |elems|
      invariant Fill(columns, used) == Capped(elems[..i], cap, maxCols)
    {
      assert elems[..i + 1][..i] == elems[..i];
      var h := Height(elems[i]);
      if used + h > 10 * maxLines && |columns| < maxCols {
        OpenThenAppend(columns, elems[i]);
        columns := columns + [[]];
        used := 0;
      }
      columns := columns[..|columns| - 1] + [columns[|columns| - 1] + [elems[i]]];
      used := used + h;
      i := i + 1;
    }
    assert elems[..|elems|] == elems;
  }
}
