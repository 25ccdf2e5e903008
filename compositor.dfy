/** What one frame of the main loop draws: the layers that are on or still
    visible, bottom to top by activation order, each faded one step toward its
    target and then drawn; and the legend for them. */
module Compositor {
  import opened Wrappers
  import opened Layers
  import opened Catalog
  import opened LegendElements
  import opened LegendLayout

  /** Whether a layer takes part in this frame: on, or still fading out. */
  predicate Visible(s: LayerState) {
    s.active || s.alpha > 0
  }

  predicate Increasing(s: seq<nat>) {
    forall j, k :: 0 <= j < k < |s| ==> s[j] < s[k]
  }

  /** The indices of the visible layers, in catalogue order. */
  function Selected(st: seq<LayerState>): (r: seq<nat>)
    ensures forall k :: 0 <= k < |r| ==> r[k] < |st| && Visible(st[r[k]])
    ensures forall i :: 0 <= i < |st| && Visible(st[i]) ==> i in r
    ensures Increasing(r)
  {
    if st == [] then []
    else
      var n := |st| - 1;
      var r := Selected(st[..n]);
      assert forall i :: 0 <= i < n ==> st[..n][i] == st[i];
      if Visible(st[n]) then r + [n] else r
  }

  /** `a` sorts before `b`: lower order, or the same order and earlier in the
      catalogue (the sort is stable). */
  predicate Before(st: seq<LayerState>, a: nat, b: nat)
    requires a < |st| && b < |st|
  {
    st[a].order < st[b].order || (st[a].order == st[b].order && a < b)
  }

  predicate SortedByOrder(st: seq<LayerState>, s: seq<nat>)
    requires InRange(s, |st|)
  {
    forall j, k :: 0 <= j < k < |s| ==> Before(st, s[j], s[k])
  }

  /** Insert `i` after every element whose order is not above its own. */
  function Insert(st: seq<LayerState>, s: seq<nat>, i: nat): (r: seq<nat>)
    requires InRange(s, |st|) && i < |st|
    ensures InRange(r, |st|) && multiset(r) == multiset(s) + multiset{i}
  {
    if s == [] then [i]
    else
      var n := |s| - 1;
      if st[s[n]].order <= st[i].order then s + [i]
      else
        var r := Insert(st, s[..n], i) + [s[n]];
        assert s == s[..n] + [s[n]];
        r
  }

  /** `sorted(..., key=orden)` by insertion. */
  function SortByOrder(st: seq<LayerState>, s: seq<nat>): (r: seq<nat>)
    requires InRange(s, |st|)
    ensures InRange(r, |st|) && multiset(r) == multiset(s)
  {
    if s == [] then []
    else
      var n := |s| - 1;
      var r := Insert(st, SortByOrder(st, s[..n]), s[n]);
      assert s == s[..n] + [s[n]];
      r
  }

  /** The layers drawn this frame, bottom to top. */
  function DrawOrder(st: seq<LayerState>): (r: seq<nat>)
    ensures InRange(r, |st|)
  {
    SortByOrder(st, Selected(st))
  }

  lemma {:induction false} InsertSorted(st: seq<LayerState>, s: seq<nat>, i: nat)
    requires InRange(s, |st|) && i < |st| && SortedByOrder(st, s)
    requires forall k :: 0 <= k < |s| ==> s[k] < i
    ensures SortedByOrder(st, Insert(st, s, i))
  {
    if s != [] {
      var n := |s| - 1;
      if st[s[n]].order > st[i].order {
        var init := s[..n];
        assert SortedByOrder(st, init);
        InsertSorted(st, init, i);
        var r := Insert(st, init, i);
        InsertMembers(st, init, i);
        assert forall k :: 0 <= k < |init| ==> Before(st, init[k], s[n]);
        AppendAbove(st, r, s[n]);
      }
    }
  }

  /** Insertion adds `i` and nothing else. */
  lemma InsertMembers(st: seq<LayerState>, s: seq<nat>, i: nat)
    requires InRange(s, |st|) && i < |st|
    ensures forall k :: 0 <= k < |Insert(st, s, i)| ==> Insert(st, s, i)[k] in s || Insert(st, s, i)[k] == i
  {
    var r := Insert(st, s, i);
    forall k | 0 <= k < |r|
      ensures r[k] in s || r[k] == i
    {
      assert r[k] in multiset(r);
    }
  }

  /** A sorted sequence stays sorted when an element after all of it is
      appended. */
  lemma AppendAbove(st: seq<LayerState>, r: seq<nat>, y: nat)
    requires InRange(r, |st|) && y < |st| && SortedByOrder(st, r)
    requires forall k :: 0 <= k < |r| ==> Before(st, r[k], y)
    ensures InRange(r + [y], |st|) && SortedByOrder(st, r + [y])
  {
    var t := r + [y];
    assert forall k :: 0 <= k < |r| ==> t[k] == r[k];
  }

  lemma {:induction false} SortSorted(st: seq<LayerState>, s: seq<nat>)
    requires InRange(s, |st|) && Increasing(s)
    ensures SortedByOrder(st, SortByOrder(st, s))
  {
    if s != [] {
      var n := |s| - 1;
      var init := s[..n];
      assert Increasing(init);
      SortSorted(st, init);
      SortKeepsBound(st, init, s[n]);
      InsertSorted(st, SortByOrder(st, init), s[n]);
    }
  }

  /** Sorting keeps every element below a bound that the input respects. */
  lemma SortKeepsBound(st: seq<LayerState>, s: seq<nat>, bound: nat)
    requires InRange(s, |st|) && forall k :: 0 <= k < |s| ==> s[k] < bound
    ensures forall k :: 0 <= k < |SortByOrder(st, s)| ==> SortByOrder(st, s)[k] < bound
  {
    var sorted := SortByOrder(st, s);
    forall k | 0 <= k < |sorted|
      ensures sorted[k] < bound
    {
      assert sorted[k] in multiset(sorted);
      assert sorted[k] in s;
    }
  }

  predicate Distinct(s: seq<nat>) {
    forall j, k :: 0 <= j < k < |s| ==> s[j] != s[k]
  }

  lemma {:induction false} IncreasingCountsOne(s: seq<nat>)
    requires Increasing(s)
    ensures forall x :: multiset(s)[x] <= 1
  {
    if s != [] {
      var init := s[..|s| - 1];
      assert Increasing(init);
      IncreasingCountsOne(init);
      assert s == init + [s[|s| - 1]];
      assert s[|s| - 1] !in init;
    }
  }

  lemma CountsOneDistinct(s: seq<nat>)
    requires forall x :: multiset(s)[x] <= 1
    ensures Distinct(s)
  {
    forall j, k | 0 <= j < k < |s|
      ensures s[j] != s[k]
    {
      assert s == s[..k] + s[k..];
      assert s[j] in s[..k] && s[k] in s[k..];
      assert multiset(s)[s[k]] == multiset(s[..k])[s[k]] + multiset(s[k..])[s[k]];
    }
  }

  /** Each frame draws exactly the visible layers, each once, bottom to top in
      ascending activation order, ties kept in catalogue order. */
  lemma DrawOrderIsStableSort(st: seq<LayerState>)
    ensures multiset(DrawOrder(st)) == multiset(Selected(st))
    ensures SortedByOrder(st, DrawOrder(st))
    ensures forall i :: 0 <= i < |st| ==> (i in DrawOrder(st) <==> Visible(st[i]))
    ensures Distinct(DrawOrder(st))
  {
    SortSorted(st, Selected(st));
    IncreasingCountsOne(Selected(st));
    CountsOneDistinct(DrawOrder(st));
    forall i | 0 <= i < |st|
      ensures i in DrawOrder(st) <==> Visible(st[i])
    {
      assert i in DrawOrder(st) <==> i in multiset(DrawOrder(st));
      assert i in Selected(st) <==> i in multiset(Selected(st));
    }
  }

  /** What drawing the frame hands to the mixer and the screen. */
  datatype Effect = Sound(layer: nat, cmd: SoundCmd) | Show(layer: nat, picture: Picture)

  /** One layer's turn: fade one step toward its target, then draw. */
  function Visit(st: seq<LayerState>, traits: seq<Traits>, i: nat, now: int): (r: (seq<LayerState>, seq<Effect>))
    requires |traits| == |st| && i < |st|
    ensures |r.0| == |st|
    ensures forall j :: 0 <= j < |st| ==> r.0[j].active == st[j].active && r.0[j].order == st[j].order
  {
    var faded := FadeStepFor(st[i], traits[i]);
    var drawn := DrawStep(faded.0, traits[i], now);
    (st[i := drawn.0],
     (if faded.1 == Silent then [] else [Sound(i, faded.1)]) +
     (if drawn.1.Some? then [Show(i, drawn.1.value)] else []))
  }

  /** Every layer of `order` takes its turn, in that order. */
  function Composite(st: seq<LayerState>, traits: seq<Traits>, order: seq<nat>, now: int): (r: (seq<LayerState>, seq<Effect>))
    requires |traits| == |st| && InRange(order, |st|)
    ensures |r.0| == |st|
    ensures forall j :: 0 <= j < |st| ==> r.0[j].active == st[j].active && r.0[j].order == st[j].order
  {
    if order == [] then (st, [])
    else
      var prev := Composite(st, traits, order[..|order| - 1], now);
      var v := Visit(prev.0, traits, order[|order| - 1], now);
      (v.0, prev.1 + v.1)
  }

  /** One more turn extends the frame by one visit. */
  lemma CompositeStep(st: seq<LayerState>, traits: seq<Traits>, order: seq<nat>, k: nat, now: int)
    requires |traits| == |st| && InRange(order, |st|) && k < |order|
    ensures var prev := Composite(st, traits, order[..k], now);
            var v := Visit(prev.0, traits, order[k], now);
            Composite(st, traits, order[..k + 1], now) == (v.0, prev.1 + v.1)
  {
    assert order[..k + 1][..k] == order[..k];
  }

  /** Drawing a frame changes only the drawn layers; each of them is faded one
      step toward its target and then animated; every layer stays coherent. */
  lemma {:induction false} CompositeEffects(st: seq<LayerState>, traits: seq<Traits>, order: seq<nat>, now: int)
    requires |traits| == |st| && InRange(order, |st|) && Distinct(order)
    ensures var r := Composite(st, traits, order, now);
            && (forall i :: 0 <= i < |st| && i !in order ==> r.0[i] == st[i])
            && (forall i :: 0 <= i < |st| && i in order ==>
                  r.0[i] == DrawStep(FadeStepFor(st[i], traits[i]).0, traits[i], now).0)
            && (forall i :: 0 <= i < |st| && Coherent(st[i], traits[i]) ==> Coherent(r.0[i], traits[i]))
  {
    if order != [] {
      var init := order[..|order| - 1];
      var p := order[|order| - 1];
      assert Distinct(init);
      CompositeEffects(st, traits, init, now);
      var prev := Composite(st, traits, init, now);
      forall i | 0 <= i < |st| && i in order && i != p
        ensures i in init
      {
        var j :| 0 <= j < |order| && order[j] == i;
        assert init[j] == i;
      }
    }
  }

  /** Sound commands and pictures name only layers that take their turn. */
  lemma {:induction false} EffectsNameDrawnLayers(st: seq<LayerState>, traits: seq<Traits>, order: seq<nat>, now: int)
    requires |traits| == |st| && InRange(order, |st|)
    ensures forall k :: 0 <= k < |Composite(st, traits, order, now).1| ==> Composite(st, traits, order, now).1[k].layer in order
  {
    if order != [] {
      var init := order[..|order| - 1];
      EffectsNameDrawnLayers(st, traits, init, now);
      var prev := Composite(st, traits, init, now);
      var v := Visit(prev.0, traits, order[|order| - 1], now);
      forall k | 0 <= k < |prev.1|
        ensures prev.1[k].layer in order
      {
        var j :| 0 <= j < |init| && init[j] == prev.1[k].layer;
        assert order[j] == init[j];
      }
      assert forall k :: 0 <= k < |v.1| ==> v.1[k].layer == order[|order| - 1];
    }
  }

  /** The pictures of a frame, as the drawing loop should hand them out: one
      per layer of `order` that has frames, in that order, showing the frame
      it reaches after its animation step at the opacity it has after its fade
      step. */
  function Shows(st: seq<LayerState>, traits: seq<Traits>, order: seq<nat>, now: int): seq<Effect>
    requires |traits| == |st| && InRange(order, |st|)
  {
    if order == [] then []
    else
      var i := order[|order| - 1];
      var faded := FadeStepFor(st[i], traits[i]).0;
      Shows(st, traits, order[..|order| - 1], now) +
      (if traits[i].frameCount > 0 then [Show(i, Picture(AnimateStep(faded, traits[i], now).frame, faded.alpha))] else [])
  }

  /** The sound commands of a frame: the command of each fade step of a layer
      of `order` that asks for one, in that order. */
  function Sounds(st: seq<LayerState>, traits: seq<Traits>, order: seq<nat>): seq<Effect>
    requires |traits| == |st| && InRange(order, |st|)
  {
    if order == [] then []
    else
      var i := order[|order| - 1];
      var cmd := FadeStepFor(st[i], traits[i]).1;
      Sounds(st, traits, order[..|order| - 1]) + (if cmd == Silent then [] else [Sound(i, cmd)])
  }

  /** The pictures among some effects, in order. */
  function ShowsOf(es: seq<Effect>): (r: seq<Effect>)
    ensures forall k :: 0 <= k < |r| ==> r[k].Show? && r[k] in es
  {
    if es == [] then []
    else
      var init := es[..|es| - 1];
      assert forall k :: 0 <= k < |init| ==> init[k] == es[k];
      ShowsOf(init) + (if es[|es| - 1].Show? then [es[|es| - 1]] else [])
  }

  /** The sound commands among some effects, in order. */
  function SoundsOf(es: seq<Effect>): (r: seq<Effect>)
    ensures forall k :: 0 <= k < |r| ==> r[k].Sound? && r[k] in es
  {
    if es == [] then []
    else
      var init := es[..|es| - 1];
      assert forall k :: 0 <= k < |init| ==> init[k] == es[k];
      SoundsOf(init) + (if es[|es| - 1].Sound? then [es[|es| - 1]] else [])
  }

  lemma {:induction false} FilterAppend(a: seq<Effect>, b: seq<Effect>)
    ensures ShowsOf(a + b) == ShowsOf(a) + ShowsOf(b)
    ensures SoundsOf(a + b) == SoundsOf(a) + SoundsOf(b)
    decreases |b|
  {
    if b == [] {
      assert a + b == a;
    } else {
      var init := b[..|b| - 1];
      assert (a + b)[..|a + b| - 1] == a + init;
      assert (a + b)[|a + b| - 1] == b[|b| - 1];
      FilterAppend(a, init);
    }
  }

  /** The effects of one visit, split into its sound command and its picture. */
  lemma VisitRecord(st: seq<LayerState>, traits: seq<Traits>, i: nat, now: int)
    requires |traits| == |st| && i < |st|
    ensures var faded := FadeStepFor(st[i], traits[i]);
            var v := Visit(st, traits, i, now).1;
            && ShowsOf(v) == (if traits[i].frameCount > 0 then [Show(i, Picture(AnimateStep(faded.0, traits[i], now).frame, faded.0.alpha))] else [])
            && SoundsOf(v) == (if faded.1 == Silent then [] else [Sound(i, faded.1)])
  {
    var faded := FadeStepFor(st[i], traits[i]);
    var drawn := DrawStep(faded.0, traits[i], now);
    var a: seq<Effect> := if faded.1 == Silent then [] else [Sound(i, faded.1)];
    var b: seq<Effect> := if drawn.1.Some? then [Show(i, drawn.1.value)] else [];
    FilterAppend(a, b);
    assert ShowsOf(a) == [] && SoundsOf(b) == [];
  }

  /** What a frame hands out: exactly one picture per drawn layer with frames
      and one command per fade step that asks for one, in drawing order, each
      computed from the layer's state before the frame. */
  lemma {:induction false} DrawRecord(st: seq<LayerState>, traits: seq<Traits>, order: seq<nat>, now: int)
    requires |traits| == |st| && InRange(order, |st|) && Distinct(order)
    ensures ShowsOf(Composite(st, traits, order, now).1) == Shows(st, traits, order, now)
    ensures SoundsOf(Composite(st, traits, order, now).1) == Sounds(st, traits, order)
  {
    if order != [] {
      var init := order[..|order| - 1];
      var p := order[|order| - 1];
      assert Distinct(init);
      DrawRecord(st, traits, init, now);
      CompositeEffects(st, traits, init, now);
      var prev := Composite(st, traits, init, now);
      assert p !in init;
      assert prev.0[p] == st[p];
      VisitRecord(prev.0, traits, p, now);
      FilterAppend(prev.1, Visit(prev.0, traits, p, now).1);
    }
  }

  /** A whole frame: one picture per visible layer with frames and one
      command per fade step that asks for one, bottom to top. */
  lemma FrameRecord(st: seq<LayerState>, traits: seq<Traits>, now: int)
    requires |traits| == |st|
    ensures ShowsOf(Composite(st, traits, DrawOrder(st), now).1) == Shows(st, traits, DrawOrder(st), now)
    ensures SoundsOf(Composite(st, traits, DrawOrder(st), now).1) == Sounds(st, traits, DrawOrder(st))
  {
    DrawOrderIsStableSort(st);
    DrawRecord(st, traits, DrawOrder(st), now);
  }

  /** The entries of `order` that are not reset screens, in order. */
  function NonReset(order: seq<nat>, traits: seq<Traits>): (f: seq<nat>)
    requires InRange(order, |traits|)
    ensures InRange(f, |traits|) && |f| <= |order|
    ensures forall k :: 0 <= k < |f| ==> f[k] in order && !traits[f[k]].isReset
    ensures forall k :: 0 <= k < |order| && !traits[order[k]].isReset ==> order[k] in f
  {
    if order == [] then []
    else
      var n := |order| - 1;
      var init := order[..n];
      assert forall k :: 0 <= k < n ==> init[k] == order[k];
      NonReset(init, traits) + (if traits[order[n]].isReset then [] else [order[n]])
  }

  /** Dropping the reset screens keeps a sorted order sorted. */
  lemma {:induction false} NonResetKeepsSorted(st: seq<LayerState>, traits: seq<Traits>, order: seq<nat>)
    requires |traits| == |st| && InRange(order, |st|) && SortedByOrder(st, order)
    ensures SortedByOrder(st, NonReset(order, traits))
  {
    if order != [] {
      var n := |order| - 1;
      var init := order[..n];
      assert SortedByOrder(st, init);
      NonResetKeepsSorted(st, traits, init);
      if !traits[order[n]].isReset {
        var f := NonReset(init, traits);
        assert forall x :: x in init ==> Before(st, x, order[n]);
        AppendAbove(st, f, order[n]);
      }
    }
  }

  /** Dropping the reset screens keeps an order free of repetitions. */
  lemma {:induction false} NonResetKeepsDistinct(traits: seq<Traits>, order: seq<nat>)
    requires InRange(order, |traits|) && Distinct(order)
    ensures Distinct(NonReset(order, traits))
  {
    if order != [] {
      var n := |order| - 1;
      var init := order[..n];
      assert Distinct(init);
      NonResetKeepsDistinct(traits, init);
      assert order[n] !in init;
      AppendNew(NonReset(init, traits), order[n]);
    }
  }

  /** Appending an element not yet present keeps a sequence free of repetitions. */
  lemma AppendNew(f: seq<nat>, y: nat)
    requires Distinct(f) && y !in f
    ensures Distinct(f + [y])
  {
    var t := f + [y];
    assert forall k :: 0 <= k < |f| ==> t[k] == f[k];
  }

  /** The legend sources of the drawn layers that are not reset screens, in
      drawing order. */
  function LegendLayers(order: seq<nat>, traits: seq<Traits>, sources: seq<LegendSource>): (r: seq<LegendSource>)
    requires InRange(order, |traits|) && |sources| == |traits|
    ensures |r| == |NonReset(order, traits)|
    ensures forall j :: 0 <= j < |r| ==> r[j] == sources[NonReset(order, traits)[j]]
  {
    if order == [] then []
    else
      var n := |order| - 1;
      var r := LegendLayers(order[..n], traits, sources);
      if traits[order[n]].isReset then r else r + [sources[order[n]]]
  }

  /** The layers whose sources the legend of a frame is given
      (`LegendLayers` of the draw order): exactly the visible layers that are
      not reset screens, each once, in ascending activation order with ties in
      table order. */
  lemma LegendSelection(st: seq<LayerState>, traits: seq<Traits>)
    requires |traits| == |st|
    ensures var f := NonReset(DrawOrder(st), traits);
            && (forall i :: 0 <= i < |st| ==> (i in f <==> Visible(st[i]) && !traits[i].isReset))
            && SortedByOrder(st, f) && Distinct(f)
  {
    var order := DrawOrder(st);
    DrawOrderIsStableSort(st);
    NonResetKeepsSorted(st, traits, order);
    NonResetKeepsDistinct(traits, order);
    var f := NonReset(order, traits);
    forall i | 0 <= i < |st| && Visible(st[i]) && !traits[i].isReset
      ensures i in f
    {
      var k :| 0 <= k < |order| && order[k] == i;
    }
  }

  /** `dibujar_leyenda_tercer_monitor` as a function: no legend for no layers. */
  function LegendOf(layers: seq<LegendSource>, shared: SharedLegends): (r: LegendOutput)
    ensures r == NoLegend <==> layers == []
    ensures r.Legend? ==> 1 <= |r.plan.columns| <= MaxColumns
  {
    if layers == [] then NoLegend else Legend(PlanOf(Elements(layers, shared)))
  }

  /** A legend raises exactly when there is one and one of its elements is an
      item whose symbol is a filled circle with a radius `int()` rejects. */
  lemma LegendRaisesExactly(layers: seq<LegendSource>, shared: SharedLegends)
    ensures LegendRaises(LegendOf(layers, shared)) <==> layers != [] && AnyElementRaises(Elements(layers, shared))
  {
    if layers != [] {
      PlanRaisesExactly(Elements(layers, shared));
    }
  }

  /** The legend of a frame: none while the designated reset screen is on;
      otherwise the legend of the drawn layers minus the reset screens. */
  function FrameLegend(st: seq<LayerState>, traits: seq<Traits>, sources: seq<LegendSource>, reset: Option<nat>, shared: SharedLegends): (r: LegendOutput)
    requires |traits| == |st| && |sources| == |st|
    requires reset.Some? ==> reset.value < |st|
    ensures r != NoLegend <==>
              !(reset.Some? && st[reset.value].active) && exists i :: 0 <= i < |st| && Visible(st[i]) && !traits[i].isReset
  {
    if reset.Some? && st[reset.value].active then NoLegend
    else
      LegendSelection(st, traits);
      var f := NonReset(DrawOrder(st), traits);
      assert f != [] ==> f[0] in f;
      LegendOf(LegendLayers(DrawOrder(st), traits, sources), shared)
  }

  /** With no layer on and none still visible, there is no legend. */
  lemma NothingVisibleNoLegend(st: seq<LayerState>, traits: seq<Traits>, sources: seq<LegendSource>, reset: Option<nat>, shared: SharedLegends)
    requires |traits| == |st| && |sources| == |st|
    requires reset.Some? ==> reset.value < |st|
    requires forall i :: 0 <= i < |st| ==> !Visible(st[i])
    ensures FrameLegend(st, traits, sources, reset, shared) == NoLegend
  {
    DrawOrderIsStableSort(st);
  }
}
