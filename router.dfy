/** What a joystick button press does to the layers: the specification the
    event handler of `Exhibit.Exhibit` is proved against.  `resets[i]` tells
    whether layer `i` is a reset screen, `reset` is the designated reset
    screen (the first one), and `counter` is the activation counter. */
module Router {
  import opened Wrappers
  import opened Layers
  import opened Catalog

  datatype Presses = Presses(states: seq<LayerState>, counter: int)

  predicate WellFormed(st: seq<LayerState>, resets: seq<bool>, reset: Option<nat>) {
    |resets| == |st| && reset == FirstReset(resets)
  }

  /** Every layer that is not a reset screen switched off; reset screens kept. */
  function DeactivateOthers(st: seq<LayerState>, resets: seq<bool>): (r: seq<LayerState>)
    requires |resets| == |st|
    ensures |r| == |st|
    ensures forall i :: 0 <= i < |st| && !resets[i] ==> r[i] == st[i].(active := false)
    ensures forall i :: 0 <= i < |st| && resets[i] ==> r[i] == st[i]
  {
    if st == [] then []
    else
      var n := |st| - 1;
      var init := DeactivateOthers(st[..n], resets[..n]);
      init + [if !resets[n] && st[n].active then st[n].(active := false) else st[n]]
  }

  /** A press handled for one bound layer `p`.  A reset screen switches every
      other layer off and itself on, ordered just above the counter, which it
      does not advance.  Another layer first switches the designated reset
      screen off, then flips; switching on advances the counter and orders
      the layer at its new value. */
  function PressOne(st: seq<LayerState>, resets: seq<bool>, reset: Option<nat>, counter: int, p: nat): (r: Presses)
    requires WellFormed(st, resets, reset) && p < |st|
    ensures |r.states| == |st| && counter <= r.counter <= counter + 1
    ensures forall i :: 0 <= i < |st| ==> r.states[i] == st[i].(active := r.states[i].active, order := r.states[i].order)
    ensures resets[p] ==> r.states[p].active
    ensures !resets[p] ==> r.states[p].active == !st[p].active
  {
    if resets[p] then
      var d := DeactivateOthers(st, resets);
      Presses(d[p := d[p].(active := true, order := counter + 1)], counter)
    else
      var d := if reset.Some? && st[reset.value].active then st[reset.value := st[reset.value].(active := false)] else st;
      if !d[p].active then Presses(d[p := d[p].(active := true, order := counter + 1)], counter + 1)
      else Presses(d[p := d[p].(active := false)], counter)
  }

  /** A press handled for every layer bound to the button, in table order. */
  function PressAll(st: seq<LayerState>, resets: seq<bool>, reset: Option<nat>, counter: int, bound: seq<nat>): (r: Presses)
    requires WellFormed(st, resets, reset) && InRange(bound, |st|)
    ensures |r.states| == |st|
    ensures counter <= r.counter <= counter + |bound|
  {
    if bound == [] then Presses(st, counter)
    else
      var prev := PressAll(st, resets, reset, counter, bound[..|bound| - 1]);
      PressOne(prev.states, resets, reset, prev.counter, bound[|bound| - 1])
  }

  /** Handling one more bound layer extends the fold by one step. */
  lemma PressAllStep(st: seq<LayerState>, resets: seq<bool>, reset: Option<nat>, counter: int, bound: seq<nat>, k: nat)
    requires WellFormed(st, resets, reset) && InRange(bound, |st|) && k < |bound|
    ensures var prev := PressAll(st, resets, reset, counter, bound[..k]);
            PressAll(st, resets, reset, counter, bound[..k + 1]) == PressOne(prev.states, resets, reset, prev.counter, bound[k])
  {
    assert bound[..k + 1][..k] == bound[..k];
  }

  /** A press on a reset screen: every other layer ends inactive and nothing
      else about them changes, the pressed screen ends active and ordered just
      above the counter, and the counter is unchanged. */
  lemma ResetPressEffects(st: seq<LayerState>, resets: seq<bool>, reset: Option<nat>, counter: int, p: nat)
    requires WellFormed(st, resets, reset) && p < |st| && resets[p]
    ensures var r := PressOne(st, resets, reset, counter, p);
            && r.counter == counter && |r.states| == |st|
            && r.states[p] == st[p].(active := true, order := counter + 1)
            && (forall i :: 0 <= i < |st| && !resets[i] ==> r.states[i] == st[i].(active := false))
            && (forall i :: 0 <= i < |st| && resets[i] && i != p ==> r.states[i] == st[i])
  {
  }

  /** Pressing a reset screen twice is the same as pressing it once. */
  lemma ResetPressIdempotent(st: seq<LayerState>, resets: seq<bool>, reset: Option<nat>, counter: int, p: nat)
    requires WellFormed(st, resets, reset) && p < |st| && resets[p]
    ensures var once := PressOne(st, resets, reset, counter, p);
            PressOne(once.states, resets, reset, once.counter, p) == once
  {
    var once := PressOne(st, resets, reset, counter, p);
    var twice := PressOne(once.states, resets, reset, once.counter, p);
    ResetPressEffects(st, resets, reset, counter, p);
    ResetPressEffects(once.states, resets, reset, once.counter, p);
    forall i | 0 <= i < |st|
      ensures twice.states[i] == once.states[i]
    {
      if i != p && !resets[i] {
        assert once.states[i] == st[i].(active := false);
      }
    }
    assert twice.states == once.states;
  }

  /** A press on another layer: the designated reset screen ends inactive, the
      layer flips, switching on advances the counter by one and orders the
      layer at the new value, switching off keeps its order and the counter,
      and no other layer changes. */
  lemma TogglePressEffects(st: seq<LayerState>, resets: seq<bool>, reset: Option<nat>, counter: int, p: nat)
    requires WellFormed(st, resets, reset) && p < |st| && !resets[p]
    ensures var r := PressOne(st, resets, reset, counter, p);
            && r.states[p].active == !st[p].active
            && (!st[p].active ==> r.counter == counter + 1 && r.states[p] == st[p].(active := true, order := counter + 1))
            && (st[p].active ==> r.counter == counter && r.states[p] == st[p].(active := false))
            && (reset.Some? ==> r.states[reset.value] == st[reset.value].(active := false))
            && (forall i :: 0 <= i < |st| && i != p && reset != Some(i) ==> r.states[i] == st[i])
  {
  }

  /** While the designated reset screen is on, every other layer is off. */
  predicate Exclusive(st: seq<LayerState>, resets: seq<bool>, reset: Option<nat>)
    requires WellFormed(st, resets, reset)
  {
    reset.Some? && st[reset.value].active ==> forall i :: 0 <= i < |st| && !resets[i] ==> !st[i].active
  }

  lemma {:induction false} PressKeepsExclusive(st: seq<LayerState>, resets: seq<bool>, reset: Option<nat>, counter: int, bound: seq<nat>)
    requires WellFormed(st, resets, reset) && InRange(bound, |st|) && Exclusive(st, resets, reset)
    ensures Exclusive(PressAll(st, resets, reset, counter, bound).states, resets, reset)
  {
    if bound != [] {
      var init := bound[..|bound| - 1];
      var p := bound[|bound| - 1];
      PressKeepsExclusive(st, resets, reset, counter, init);
      var prev := PressAll(st, resets, reset, counter, init);
      if resets[p] {
        ResetPressEffects(prev.states, resets, reset, prev.counter, p);
      } else {
        TogglePressEffects(prev.states, resets, reset, prev.counter, p);
      }
    }
  }

  /** No layer is ordered above the counter, except a reset screen, at most
      one above it. */
  predicate OrdersBounded(st: seq<LayerState>, resets: seq<bool>, counter: int)
    requires |resets| == |st|
  {
    forall i :: 0 <= i < |st| ==> st[i].order <= counter + (if resets[i] then 1 else 0)
  }

  lemma {:induction false} PressKeepsOrdersBounded(st: seq<LayerState>, resets: seq<bool>, reset: Option<nat>, counter: int, bound: seq<nat>)
    requires WellFormed(st, resets, reset) && InRange(bound, |st|) && OrdersBounded(st, resets, counter)
    ensures var r := PressAll(st, resets, reset, counter, bound);
            OrdersBounded(r.states, resets, r.counter)
  {
    if bound != [] {
      var init := bound[..|bound| - 1];
      var p := bound[|bound| - 1];
      PressKeepsOrdersBounded(st, resets, reset, counter, init);
      var prev := PressAll(st, resets, reset, counter, init);
      if resets[p] {
        ResetPressEffects(prev.states, resets, reset, prev.counter, p);
      } else {
        TogglePressEffects(prev.states, resets, reset, prev.counter, p);
      }
    }
  }

  /** A layer just switched on is ordered above every other layer that is not
      a reset screen, and no lower than any reset screen. */
  lemma SwitchedOnIsTopmost(st: seq<LayerState>, resets: seq<bool>, reset: Option<nat>, counter: int, p: nat)
    requires WellFormed(st, resets, reset) && p < |st| && !resets[p] && !st[p].active
    requires OrdersBounded(st, resets, counter)
    ensures var r := PressOne(st, resets, reset, counter, p);
            forall i :: 0 <= i < |st| && i != p ==>
              (if resets[i] then r.states[i].order <= r.states[p].order else r.states[i].order < r.states[p].order)
  {
    TogglePressEffects(st, resets, reset, counter, p);
  }
}
