/** The layout of the legend on the third monitor: the choice of font size
    and column count, the column geometry, and the position of every title and
    item.  Pixel coordinates are relative to the legend's 1920x1080 surface. */
module LegendLayout {
  import opened Wrappers
  import opened Glyphs
  import opened LegendElements
  import opened Packing

  const ScreenWidth := 1920
  const ScreenHeight := 1080
  const SideMargin := 25
  const TopMargin := 25
  const BottomMargin := 360
  /** The dark background panel: 1870 by 670 pixels. */
  const ContentWidth := ScreenWidth - 2 * SideMargin
  const ContentHeight := ScreenHeight - 2 * TopMargin - BottomMargin
  const Gutter := 30
  /** The y coordinate of the first line of every column. */
  const FirstLine := TopMargin + 15
  const MaxColumns := 3
  /** Font sizes tried, largest first. */
  const FontSizes: seq<nat> := [16, 14, 12]

  /** `int(size * 1.25)`. */
  function LineSpacing(font: nat): (lh: nat)
    ensures font > 0 ==> lh > 0
  {
    (font * 5) / 4
  }

  /** `int(esp_linea * 1.4)`, the advance after a title. */
  function TitleAdvance(lh: nat): nat {
    (lh * 14) / 10
  }

  datatype Choice = Choice(font: nat, lineHeight: nat, symbolSize: nat, columns: nat)

  /** What the search keeps when no font size fits. */
  const Fallback := Choice(16, 20, 16, 1)

  /** Height of the tallest column, in tenths of a pixel. */
  function Tallest(cols: seq<seq<Element>>, lh: nat): (t: nat)
    ensures forall k :: 0 <= k < |cols| ==> lh * ColumnHeight(cols[k]) <= t
    ensures t == 0 || exists k :: 0 <= k < |cols| && t == lh * ColumnHeight(cols[k])
  {
    if cols == [] then 0
    else
      var t := Tallest(cols[..|cols| - 1], lh);
      var h := lh * ColumnHeight(cols[|cols| - 1]);
      if h > t then h else t
  }

  /** Greedy packing for one font size. */
  function Packed(elems: seq<Element>, font: nat): Fill
    requires font > 0
  {
    Greedy(elems, Capacity(ContentHeight, LineSpacing(font)))
  }

  /** A font size is accepted when greedy packing needs at most three columns
      and the tallest of them is no taller than the panel. */
  predicate Fits(elems: seq<Element>, font: nat)
    requires font > 0
  {
    var g := Packed(elems, font);
    |g.columns| <= MaxColumns && Tallest(g.columns, LineSpacing(font)) <= 10 * ContentHeight
  }

  function ChoiceFor(elems: seq<Element>, font: nat): Choice
    requires font > 0
  {
    Choice(font, LineSpacing(font), font, |Packed(elems, font).columns|)
  }

  /** The search: the first font size in `fonts` that fits, else the fallback. */
  function Search(elems: seq<Element>, fonts: seq<nat>): (c: Choice)
    requires forall i :: 0 <= i < |fonts| ==> fonts[i] > 0
    ensures forall i :: 0 <= i < |fonts| && Fits(elems, fonts[i]) && (forall j :: 0 <= j < i ==> !Fits(elems, fonts[j])) ==>
              c == ChoiceFor(elems, fonts[i])
    ensures (forall i :: 0 <= i < |fonts| ==> !Fits(elems, fonts[i])) ==> c == Fallback
    ensures c == Fallback || exists i :: 0 <= i < |fonts| && Fits(elems, fonts[i]) && c == ChoiceFor(elems, fonts[i])
  {
    if fonts == [] then Fallback
    else if Fits(elems, fonts[0]) then ChoiceFor(elems, fonts[0])
    else
      var c := Search(elems, fonts[1..]);
      assert forall i :: 1 <= i < |fonts| ==> fonts[1..][i - 1] == fonts[i];
      FitShifts(elems, fonts, c);
      c
  }

  /** A choice made from the fonts after the first is made from the fonts. */
  lemma FitShifts(elems: seq<Element>, fonts: seq<nat>, c: Choice)
    requires fonts != [] && forall i :: 0 <= i < |fonts| ==> fonts[i] > 0
    requires c == Fallback || exists i :: 0 <= i < |fonts[1..]| && Fits(elems, fonts[1..][i]) && c == ChoiceFor(elems, fonts[1..][i])
    ensures c == Fallback || exists i :: 0 <= i < |fonts| && Fits(elems, fonts[i]) && c == ChoiceFor(elems, fonts[i])
  {
    if c != Fallback {
      var i :| 0 <= i < |fonts[1..]| && Fits(elems, fonts[1..][i]) && c == ChoiceFor(elems, fonts[1..][i]);
      assert fonts[1..][i] == fonts[i + 1];
    }
  }

  /** The size the legend is drawn at: whichever the search settles on, its
      line spacing and symbol size are those of its font size. */
  function Chosen(elems: seq<Element>): (c: Choice)
    ensures c.lineHeight == LineSpacing(c.font) && c.symbolSize == c.font && c.font > 0
  {
    Search(elems, FontSizes)
  }

  /** The height check of the search never rejects a packing of at most three
      columns: with room for at least one title per column, no column is
      taller than its capacity, and the capacity is a whole number of lines
      no taller than the panel. */
  lemma HeightCheckRedundant(elems: seq<Element>, font: nat)
    requires font in FontSizes
    ensures Fits(elems, font) <==> |Packed(elems, font).columns| <= MaxColumns
  {
    var lh := LineSpacing(font);
    var cap := Capacity(ContentHeight, lh);
    PanelHoldsCapacity(font);
    var g := Packed(elems, font);
    GreedyColumnsFit(elems, cap);
    var t := Tallest(g.columns, lh);
    if t != 0 {
      var k :| 0 <= k < |g.columns| && t == lh * ColumnHeight(g.columns[k]);
      MultiplyBelow(lh, ColumnHeight(g.columns[k]), cap);
    }
  }

  /** For every font size tried, a column holds at least one title and a full
      column is no taller than the panel. */
  lemma PanelHoldsCapacity(font: nat)
    requires font in FontSizes
    ensures var lh := LineSpacing(font);
            var cap := Capacity(ContentHeight, lh);
            cap >= 14 && lh * cap <= 10 * ContentHeight
  {
    assert font == 16 || font == 14 || font == 12;
    assert ContentHeight == 670;
    if font == 16 {
      assert LineSpacing(font) == 20 && Capacity(ContentHeight, 20) == 330;
    } else if font == 14 {
      assert LineSpacing(font) == 17 && Capacity(ContentHeight, 17) == 390;
    } else {
      assert LineSpacing(font) == 15 && Capacity(ContentHeight, 15) == 440;
    }
  }

  lemma MultiplyBelow(a: nat, b: nat, c: nat)
    requires b <= c
    ensures a * b <= a * c
  {
  }

  /** Greedy packing needs at most three columns for one of the font sizes. */
  predicate SomeFontFits(elems: seq<Element>) {
    || |Packed(elems, 16).columns| <= MaxColumns
    || |Packed(elems, 14).columns| <= MaxColumns
    || |Packed(elems, 12).columns| <= MaxColumns
  }

  /** The chosen layout uses one to three columns, and the largest font whose
      greedy packing needs at most three of them. */
  lemma ChosenIsLargestFit(elems: seq<Element>)
    ensures 1 <= Chosen(elems).columns <= MaxColumns
    ensures |Packed(elems, 16).columns| <= MaxColumns ==> Chosen(elems) == ChoiceFor(elems, 16)
    ensures (|Packed(elems, 16).columns| > MaxColumns && |Packed(elems, 14).columns| <= MaxColumns) ==>
              Chosen(elems) == ChoiceFor(elems, 14)
    ensures (&& |Packed(elems, 16).columns| > MaxColumns && |Packed(elems, 14).columns| > MaxColumns
             && |Packed(elems, 12).columns| <= MaxColumns) ==>
              Chosen(elems) == ChoiceFor(elems, 12)
    ensures !SomeFontFits(elems) ==> Chosen(elems) == Fallback
  {
    HeightCheckRedundant(elems, 16);
    HeightCheckRedundant(elems, 14);
    HeightCheckRedundant(elems, 12);
    ChosenCases(elems);
  }

  /** The search over the three font sizes, unfolded. */
  lemma ChosenCases(elems: seq<Element>)
    ensures Chosen(elems) == if Fits(elems, 16) then ChoiceFor(elems, 16)
                             else if Fits(elems, 14) then ChoiceFor(elems, 14)
                             else if Fits(elems, 12) then ChoiceFor(elems, 12)
                             else Fallback
  {
    SearchFirst(elems);
    SearchSecond(elems);
    SearchThird(elems);
  }

  lemma SearchFirst(elems: seq<Element>)
    ensures Chosen(elems) == if Fits(elems, 16) then ChoiceFor(elems, 16) else Search(elems, [14, 12])
  {
    assert FontSizes[0] == 16 && FontSizes[1..] == [14, 12];
  }

  lemma SearchSecond(elems: seq<Element>)
    ensures Search(elems, [14, 12]) == if Fits(elems, 14) then ChoiceFor(elems, 14) else Search(elems, [12])
  {
    assert [14, 12][1..] == [12];
  }

  lemma SearchThird(elems: seq<Element>)
    ensures Search(elems, [12]) == if Fits(elems, 12) then ChoiceFor(elems, 12) else Fallback
  {
    assert [12][1..] == [];
  }

  /** The nested search loops: font sizes largest first, and for each, three
      columns down to one. */
  method ChooseLayout(elems: seq<Element>) returns (c: Choice)
    ensures c == Chosen(elems)
  {
    c := Fallback;
    var i := 0;
    while i < |FontSizes|
      invariant 0 <= i <= |FontSizes|
      invariant c == Fallback
      invariant Chosen(elems) == Search(elems, FontSizes[i..])
    {
      var font := FontSizes[i];
      var lh := LineSpacing(font);
      var cols := MaxColumns;
      var broke := false;
      while cols > 0
        invariant 0 <= cols <= MaxColumns
        invariant c == Fallback && !broke
        invariant cols < MaxColumns ==> !Fits(elems, font)
      {
        var columns := Split(elems, ContentHeight, lh, cols);
        if columns.Some? {
          var tallest := TallestColumn(columns.value, lh);
          if tallest <= 10 * ContentHeight {
            c := Choice(font, lh, font, |columns.value|);
            broke := true;
            break;
          }
        }
        if c.columns > 1 {
          broke := true;
          break;
        }
        cols := cols - 1;
      }
      if broke {
        assert FontSizes[i..][0] == font;
        return;
      }
      assert FontSizes[i..][1..] == FontSizes[i + 1..];
      i := i + 1;
    }
  }

  /** The height check's scan over the columns. */
  method TallestColumn(columns: seq<seq<Element>>, lh: nat) returns (tallest: nat)
    ensures tallest == Tallest(columns, lh)
  {
    tallest := 0;
    var k := 0;
    while k < |columns|
      invariant 0 <= k <= |columns|
      invariant tallest == Tallest(columns[..k], lh)
    {
      assert columns[..k + 1][..k] == columns[..k];
      var height := ColumnPixels(columns[k], lh);
      if height > tallest {
        tallest := height;
      }
      k := k + 1;
    }
    assert columns[..|columns|] == columns;
  }

  method ColumnPixels(col: seq<Element>, lh: nat) returns (height: nat)
    ensures height == lh * ColumnHeight(col)
  {
    height := 0;
    var j := 0;
    while j < |col|
      invariant 0 <= j <= |col|
      invariant height == lh * ColumnHeight(col[..j])
    {
      assert col[..j + 1][..j] == col[..j];
      height := height + lh * Height(col[j]);
      j := j + 1;
    }
    assert col[..|col|] == col;
  }

  /** The width of each of `n` columns: `n` columns and the gutters between
      them fill the panel's width, short of it by less than `n` pixels. */
  function ColumnWidth(n: int): (w: int)
    ensures n >= 1 ==> n * w + Gutter * (n - 1) <= ContentWidth < n * w + Gutter * (n - 1) + n
    ensures n <= 0 ==> w == ContentWidth
  {
    if n > 0 then (ContentWidth - Gutter * (n - 1)) / n else ContentWidth
  }

  /** The left edge of column `idx`. */
  function ColumnX(idx: nat, w: int): int {
    SideMargin + idx * (w + Gutter)
  }

  /** Every column lies inside the panel, and each starts a gutter to the
      right of the previous one's right edge. */
  lemma ColumnsInsidePanel(n: nat, idx: nat)
    requires 1 <= n <= MaxColumns && idx < n
    ensures SideMargin <= ColumnX(idx, ColumnWidth(n))
    ensures ColumnX(idx, ColumnWidth(n)) + ColumnWidth(n) <= SideMargin + ContentWidth
    ensures idx + 1 < n ==> ColumnX(idx + 1, ColumnWidth(n)) == ColumnX(idx, ColumnWidth(n)) + ColumnWidth(n) + Gutter
  {
    var w := ColumnWidth(n);
    assert n == 1 || n == 2 || n == 3;
    assert w == 1870 || w == 920 || w == 603;
  }

  /** An element as placed on the legend surface: its text, and for an item
      its color, its symbol and the top-left corner of the symbol's square. */
  datatype Placed =
    | TitleAt(text: string, x: int, y: int)
    | ItemAt(text: string, color: string, glyph: GlyphResult, x: int, y: int)

  function Advance(e: Element, lh: nat): nat {
    if e.Title? then TitleAdvance(lh) else lh
  }

  /** How far down a column's elements reach, in pixels. */
  function ColumnAdvance(col: seq<Element>, lh: nat): nat {
    if col == [] then 0 else ColumnAdvance(col[..|col| - 1], lh) + Advance(col[|col| - 1], lh)
  }

  function Place(e: Element, x: int, y: int): Placed {
    match e
    case Title(t) => TitleAt(t, x, y)
    case Item(t, color, symbol) => ItemAt(t, color, GlyphOf(symbol), x, y)
  }

  /** Every element of a column, each placed below the ones before it. */
  function Placements(col: seq<Element>, x: int, lh: nat): (ps: seq<Placed>)
    ensures |ps| == |col|
  {
    if col == [] then []
    else
      var init := col[..|col| - 1];
      Placements(init, x, lh) + [Place(col[|col| - 1], x, FirstLine + ColumnAdvance(init, lh))]
  }

  /** Element `k` of a column sits at the column's left edge, one advance per
      preceding element below the first line. */
  lemma {:induction false} PlacementPositions(col: seq<Element>, x: int, lh: nat)
    ensures forall k :: 0 <= k < |col| ==> Placements(col, x, lh)[k] == Place(col[k], x, FirstLine + ColumnAdvance(col[..k], lh))
  {
    forall k | 0 <= k < |col|
      ensures Placements(col, x, lh)[k] == Place(col[k], x, FirstLine + ColumnAdvance(col[..k], lh))
    {
      PlacementAt(col, x, lh, k);
    }
  }

  lemma {:induction false} PlacementAt(col: seq<Element>, x: int, lh: nat, k: nat)
    requires k < |col|
    ensures Placements(col, x, lh)[k] == Place(col[k], x, FirstLine + ColumnAdvance(col[..k], lh))
  {
    var init := col[..|col| - 1];
    var ps := Placements(init, x, lh);
    var last := Place(col[|col| - 1], x, FirstLine + ColumnAdvance(init, lh));
    assert Placements(col, x, lh) == ps + [last];
    if k < |init| {
      PlacementAt(init, x, lh, k);
      assert (ps + [last])[k] == ps[k];
      assert init[..k] == col[..k];
    } else {
      assert col[..k] == init;
    }
  }

  /** A title moves the cursor down by at most 1.4 lines and an item by one,
      so a column reaches no further down than its height in lines. */
  lemma {:induction false} AdvanceWithinHeight(col: seq<Element>, lh: nat)
    ensures 10 * ColumnAdvance(col, lh) <= lh * ColumnHeight(col)
  {
    if col != [] {
      var init := col[..|col| - 1];
      var last := col[|col| - 1];
      AdvanceWithinHeight(init, lh);
      assert 10 * Advance(last, lh) <= lh * Height(last);
      assert lh * ColumnHeight(col) == lh * ColumnHeight(init) + lh * Height(last);
    }
  }

  /** All columns, left to right. */
  function PlaceAll(cols: seq<seq<Element>>, w: int, lh: nat): (r: seq<seq<Placed>>)
    ensures |r| == |cols|
  {
    if cols == [] then []
    else
      var init := cols[..|cols| - 1];
      PlaceAll(init, w, lh) + [Placements(cols[|cols| - 1], ColumnX(|init|, w), lh)]
  }

  lemma {:induction false} PlaceAllColumns(cols: seq<seq<Element>>, w: int, lh: nat)
    ensures forall k :: 0 <= k < |cols| ==> PlaceAll(cols, w, lh)[k] == Placements(cols[k], ColumnX(k, w), lh)
  {
    if cols != [] {
      PlaceAllColumns(cols[..|cols| - 1], w, lh);
    }
  }

  datatype Plan = Plan(font: nat, lineHeight: nat, symbolSize: nat, columnWidth: int, columns: seq<seq<Placed>>)

  /** The final packing: the elements split again with the chosen line
      height, into at most the chosen number of columns. */
  function FinalColumns(elems: seq<Element>): seq<seq<Element>> {
    var c := Chosen(elems);
    assert c.lineHeight > 0;
    Capped(elems, Capacity(ContentHeight, c.lineHeight), c.columns).columns
  }

  /** The laid-out legend: the chosen size, the final columns and where each
      element goes.  Between one and three columns, side by side inside the
      panel's width. */
  function PlanOf(elems: seq<Element>): (p: Plan)
    ensures 1 <= |p.columns| <= MaxColumns
    ensures |p.columns| * p.columnWidth + Gutter * (|p.columns| - 1) <= ContentWidth
  {
    FinalColumnsShape(elems);
    var c := Chosen(elems);
    var cols := FinalColumns(elems);
    var w := ColumnWidth(|cols|);
    Plan(c.font, c.lineHeight, c.symbolSize, w, PlaceAll(cols, w, c.lineHeight))
  }

  /** The final packing keeps every element in order, in one to three
      columns. */
  lemma FinalColumnsShape(elems: seq<Element>)
    ensures Flatten(FinalColumns(elems)) == elems
    ensures 1 <= |FinalColumns(elems)| <= MaxColumns
  {
    var c := Chosen(elems);
    ChosenIsLargestFit(elems);
    CappedProperties(elems, Capacity(ContentHeight, c.lineHeight), c.columns);
  }

  /** The plan places every element exactly once and in order: column by
      column, at most three columns, each element at its column's left edge
      below the ones before it; the columns lie inside the panel. */
  lemma PlanPlacesEveryElement(elems: seq<Element>)
    ensures Flatten(FinalColumns(elems)) == elems
    ensures |PlanOf(elems).columns| == |FinalColumns(elems)|
    ensures 1 <= |PlanOf(elems).columns| <= MaxColumns
    ensures forall k :: 0 <= k < |FinalColumns(elems)| ==>
              PlanOf(elems).columns[k] == Placements(FinalColumns(elems)[k], ColumnX(k, PlanOf(elems).columnWidth), PlanOf(elems).lineHeight)
    ensures forall k :: 0 <= k < |PlanOf(elems).columns| ==>
              && SideMargin <= ColumnX(k, PlanOf(elems).columnWidth)
              && ColumnX(k, PlanOf(elems).columnWidth) + PlanOf(elems).columnWidth <= SideMargin + ContentWidth
  {
    var cols := FinalColumns(elems);
    var plan := PlanOf(elems);
    var w := ColumnWidth(|cols|);
    var lh := Chosen(elems).lineHeight;
    assert plan.columnWidth == w && plan.lineHeight == lh && plan.columns == PlaceAll(cols, w, lh);
    FinalColumnsShape(elems);
    PlaceAllColumns(cols, w, lh);
    forall k | 0 <= k < |cols|
      ensures SideMargin <= ColumnX(k, w) && ColumnX(k, w) + w <= SideMargin + ContentWidth
    {
      ColumnsInsidePanel(|cols|, k);
    }
  }

  /** Drawing this item raises: it names a filled circle whose radius
      `int()` rejects, outside any `try`. */
  predicate PlacedRaises(p: Placed) {
    p.ItemAt? && p.glyph.RadiusNotAnInteger?
  }

  predicate ElementRaises(e: Element) {
    e.Item? && GlyphOf(e.symbol).RadiusNotAnInteger?
  }

  /** Some element of `es` satisfies `bad`. */
  predicate AnyOf(es: seq<Element>, bad: Element -> bool) {
    exists k :: 0 <= k < |es| && bad(es[k])
  }

  predicate AnyElementRaises(es: seq<Element>) {
    AnyOf(es, ElementRaises)
  }

  predicate ColumnRaises(ps: seq<Placed>) {
    exists k :: 0 <= k < |ps| && PlacedRaises(ps[k])
  }

  /** Drawing the plan raises somewhere in it. */
  predicate PlanRaises(plan: Plan) {
    exists c :: 0 <= c < |plan.columns| && ColumnRaises(plan.columns[c])
  }

  lemma AnyOfAppend(a: seq<Element>, b: seq<Element>, bad: Element -> bool)
    ensures AnyOf(a + b, bad) <==> AnyOf(a, bad) || AnyOf(b, bad)
  {
    if AnyOf(a + b, bad) {
      var k :| 0 <= k < |a + b| && bad((a + b)[k]);
      if k < |a| { assert (a + b)[k] == a[k]; } else { assert (a + b)[k] == b[k - |a|]; }
    }
    if AnyOf(a, bad) {
      var k :| 0 <= k < |a| && bad(a[k]);
      assert (a + b)[k] == a[k];
    }
    if AnyOf(b, bad) {
      var k :| 0 <= k < |b| && bad(b[k]);
      assert (a + b)[k + |a|] == b[k];
    }
  }

  lemma {:induction false} FlattenAnyOf(cols: seq<seq<Element>>, bad: Element -> bool)
    ensures AnyOf(Flatten(cols), bad) <==> exists c :: 0 <= c < |cols| && AnyOf(cols[c], bad)
  {
    if cols != [] {
      var init := cols[..|cols| - 1];
      var last := cols[|cols| - 1];
      assert Flatten(cols) == Flatten(init) + last;
      FlattenAnyOf(init, bad);
      AnyOfAppend(Flatten(init), last, bad);
      if AnyOf(Flatten(cols), bad) {
        if AnyOf(Flatten(init), bad) {
          var c :| 0 <= c < |init| && AnyOf(init[c], bad);
          assert cols[c] == init[c];
        } else {
          assert AnyOf(cols[|cols| - 1], bad);
        }
      }
      if exists c :: 0 <= c < |cols| && AnyOf(cols[c], bad) {
        var c :| 0 <= c < |cols| && AnyOf(cols[c], bad);
        if c < |init| {
          assert init[c] == cols[c];
        }
      }
    }
  }

  lemma PlacementsRaise(col: seq<Element>, x: int, lh: nat)
    ensures ColumnRaises(Placements(col, x, lh)) <==> AnyElementRaises(col)
  {
    PlacementPositions(col, x, lh);
    var ps := Placements(col, x, lh);
    assert forall k :: 0 <= k < |col| ==> (PlacedRaises(ps[k]) <==> ElementRaises(col[k]));
  }

  /** Drawing the legend raises exactly when one of its elements is an item
      whose symbol is a filled circle with a radius `int()` rejects. */
  lemma PlanRaisesExactly(elems: seq<Element>)
    ensures PlanRaises(PlanOf(elems)) <==> AnyElementRaises(elems)
  {
    PlanPlacesEveryElement(elems);
    var plan := PlanOf(elems);
    var cols := FinalColumns(elems);
    forall c | 0 <= c < |cols|
      ensures ColumnRaises(plan.columns[c]) <==> AnyElementRaises(cols[c])
    {
      PlacementsRaise(cols[c], ColumnX(c, plan.columnWidth), plan.lineHeight);
    }
    FlattenAnyOf(cols, ElementRaises);
  }

  /** With a font size of the search, no column of a greedy packing reaches
      below the panel's content height. */
  lemma GreedyFitsHeight(elems: seq<Element>, font: nat)
    requires font in FontSizes
    ensures forall k :: 0 <= k < |Packed(elems, font).columns| ==>
              ColumnAdvance(Packed(elems, font).columns[k], LineSpacing(font)) <= ContentHeight
  {
    var lh := LineSpacing(font);
    var cap := Capacity(ContentHeight, lh);
    assert lh == 20 || lh == 17 || lh == 15;
    assert lh * cap <= 10 * ContentHeight;
    var cols := Packed(elems, font).columns;
    GreedyColumnsFit(elems, cap);
    forall k | 0 <= k < |cols|
      ensures ColumnAdvance(cols[k], lh) <= ContentHeight
    {
      AdvanceWithinHeight(cols[k], lh);
      MultiplyBelow(lh, ColumnHeight(cols[k]), cap);
    }
  }

  /** When a font size fits, the final packing is its greedy packing. */
  lemma FinalIsGreedy(elems: seq<Element>, font: nat)
    requires font in FontSizes && |Packed(elems, font).columns| <= MaxColumns
    requires Chosen(elems) == ChoiceFor(elems, font)
    ensures FinalColumns(elems) == Packed(elems, font).columns
  {
    CappedProperties(elems, Capacity(ContentHeight, LineSpacing(font)), |Packed(elems, font).columns|);
  }

  /** When some font size fits, no column of the final layout reaches below
      the panel's content height. */
  lemma PlanFitsHeight(elems: seq<Element>)
    requires SomeFontFits(elems)
    ensures forall k :: 0 <= k < |FinalColumns(elems)| ==>
              ColumnAdvance(FinalColumns(elems)[k], Chosen(elems).lineHeight) <= ContentHeight
  {
    var font := ChosenFont(elems);
    FinalIsGreedy(elems, font);
    GreedyFitsHeight(elems, font);
    var cols := FinalColumns(elems);
    assert Chosen(elems).lineHeight == LineSpacing(font);
    forall k | 0 <= k < |cols|
      ensures ColumnAdvance(cols[k], Chosen(elems).lineHeight) <= ContentHeight
    {
      assert cols[k] == Packed(elems, font).columns[k];
    }
  }

  /** The font size the search settles on, when one fits. */
  lemma ChosenFont(elems: seq<Element>) returns (font: nat)
    requires SomeFontFits(elems)
    ensures font in FontSizes && |Packed(elems, font).columns| <= MaxColumns
    ensures Chosen(elems) == ChoiceFor(elems, font)
  {
    ChosenIsLargestFit(elems);
    if |Packed(elems, 16).columns| <= MaxColumns {
      font := 16;
    } else if |Packed(elems, 14).columns| <= MaxColumns {
      font := 14;
    } else {
      font := 12;
    }
  }

  /** The cursor loop over one column. */
  method PlaceColumn(col: seq<Element>, x: int, lh: nat) returns (ps: seq<Placed>)
    ensures ps == Placements(col, x, lh)
  {
    ps := [];
    var y := FirstLine;
    var j := 0;
    while j < |col|
      invariant 0 <= j <= |col|
      invariant ps == Placements(col[..j], x, lh)
      invariant y == FirstLine + ColumnAdvance(col[..j], lh)
    {
      assert col[..j + 1][..j] == col[..j];
      var e := col[j];
      if e.Title? {
        ps := ps + [TitleAt(e.text, x, y)];
        y := y + TitleAdvance(lh);
      } else {
        var glyph := GlyphOf(e.symbol);
        ps := ps + [ItemAt(e.text, e.color, glyph, x, y)];
        y := y + lh;
      }
      j := j + 1;
    }
    assert col[..|col|] == col;
  }

  /** Choose the layout, split the elements again with it, and place every
      column. */
  method LayOut(elems: seq<Element>) returns (plan: Plan)
    ensures plan == PlanOf(elems)
  {
    var c := ChooseLayout(elems);
    var cols := SplitFinal(elems, ContentHeight, c.lineHeight, c.columns);
    var w := ColumnWidth(|cols|);
    var placed := PlaceColumns(cols, w, c.lineHeight);
    plan := Plan(c.font, c.lineHeight, c.symbolSize, w, placed);
  }

  /** Place every column, left to right. */
  method PlaceColumns(cols: seq<seq<Element>>, w: int, lh: nat) returns (placed: seq<seq<Placed>>)
    ensures placed == PlaceAll(cols, w, lh)
  {
    placed := [];
    var k := 0;
    while k < |cols|
      invariant 0 <= k <= |cols|
      invariant placed == PlaceAll(cols[..k], w, lh)
    {
      assert cols[..k + 1][..k] == cols[..k];
      var column := PlaceColumn(cols[k], ColumnX(k, w), lh);
      placed := placed + [column];
      k := k + 1;
    }
    assert cols[..|cols|] == cols;
  }

  datatype LegendOutput = NoLegend | Legend(plan: Plan)

  /** Drawing this legend raises, which ends the program. */
  predicate LegendRaises(out: LegendOutput) {
    out.Legend? && PlanRaises(out.plan)
  }

  /** `dibujar_leyenda_tercer_monitor`: nothing at all for an empty selection;
      otherwise the panel and the planned elements (possibly none). */
  method DrawLegend(layers: seq<LegendSource>, shared: SharedLegends) returns (out: LegendOutput)
    ensures layers == [] <==> out == NoLegend
    ensures out.Legend? ==> out.plan == PlanOf(Elements(layers, shared))
  {
    if layers == [] {
      return NoLegend;
    }
    var elems := Generate(layers, shared);
    var plan := LayOut(elems);
    out := Legend(plan);
  }
}
