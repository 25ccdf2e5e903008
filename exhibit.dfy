/** The exhibit's main loop: the layers, the binding table, the reset screen,
    the activation counter and the narration keys, and what one pass of the
    loop does with a batch of input events and the clock. */
module Exhibit {
  import opened Wrappers
  import opened Layers
  import opened LegendElements
  import opened LegendLayout
  import opened Catalog
  import opened Router
  import opened Compositor

  /** The key code of Escape. */
  const Escape := 27

  datatype Event =
    | Quit
    | ButtonDown(instance: int, button: int)
    | KeyDown(key: int, shift: bool)
    | OtherEvent

  /** What one pass of the loop hands to the outside world. */
  datatype Frame = Frame(effects: seq<Effect>, legend: LegendOutput)

  /** One frame: every visible layer takes its turn bottom to top, then the
      legend is drawn unless the reset screen is on. */
  function DrawFrame(st: seq<LayerState>, traits: seq<Traits>, sources: seq<LegendSource>, reset: Option<nat>,
                     shared: SharedLegends, now: int): (r: (seq<LayerState>, Frame))
    requires |traits| == |st| && |sources| == |st|
    requires reset.Some? ==> reset.value < |st|
    ensures |r.0| == |st|
    ensures forall i :: 0 <= i < |st| && !Visible(st[i]) ==> r.0[i] == st[i]
    ensures forall i :: 0 <= i < |st| && Visible(st[i]) ==> r.0[i] == DrawStep(FadeStepFor(st[i], traits[i]).0, traits[i], now).0
    ensures r.1.legend != NoLegend <==>
              !(reset.Some? && st[reset.value].active) && exists i :: 0 <= i < |st| && Visible(st[i]) && !traits[i].isReset
  {
    DrawOrderIsStableSort(st);
    CompositeEffects(st, traits, DrawOrder(st), now);
    var c := Composite(st, traits, DrawOrder(st), now);
    (c.0, Frame(c.1, FrameLegend(st, traits, sources, reset, shared)))
  }

  /** A narration key's sound command. */
  datatype Narration = Narration(key: int, cmd: SoundCmd)

  /** One layer as configured: its table row, its opacity, whether a sound
      was loaded for its file, how many frames its image has, its legend. */
  datatype Setup = Setup(config: LayerConfig, maxAlpha: nat, hasSound: bool, frameCount: nat, legend: LegendSource)

  function TraitsOfSetup(s: Setup): Traits {
    Traits(s.config.isReset, s.maxAlpha, s.hasSound, s.frameCount)
  }

  function ConfigsOf(setups: seq<Setup>): (r: seq<LayerConfig>)
    ensures |r| == |setups| && forall i :: 0 <= i < |setups| ==> r[i] == setups[i].config
  {
    seq(|setups|, i requires 0 <= i < |setups| => setups[i].config)
  }

  function StatesOf(ls: seq<Layer>): (r: seq<LayerState>)
    reads ls
    ensures |r| == |ls| && forall i :: 0 <= i < |ls| ==> r[i] == ls[i].State()
  {
    if ls == [] then [] else StatesOf(ls[..|ls| - 1]) + [ls[|ls| - 1].State()]
  }

  function TraitsOf(ls: seq<Layer>): (r: seq<Traits>)
    ensures |r| == |ls| && forall i :: 0 <= i < |ls| ==> r[i] == ls[i].traits
  {
    seq(|ls|, i requires 0 <= i < |ls| => ls[i].traits)
  }

  function ResetsOf(ls: seq<Layer>): (r: seq<bool>)
    ensures |r| == |ls| && forall i :: 0 <= i < |ls| ==> r[i] == ls[i].traits.isReset
  {
    seq(|ls|, i requires 0 <= i < |ls| => ls[i].traits.isReset)
  }

  function SourcesOf(ls: seq<Layer>): (r: seq<LegendSource>)
    ensures |r| == |ls| && forall i :: 0 <= i < |ls| ==> r[i] == ls[i].legend
  {
    seq(|ls|, i requires 0 <= i < |ls| => ls[i].legend)
  }

  /** The player a joystick stands for: one more than its position among
      the connected joysticks; none for an unknown joystick. */
  function PlayerOf(joysticks: seq<int>, instance: int): (r: Option<int>)
    ensures r.Some? ==> 1 <= r.value <= |joysticks| && joysticks[r.value - 1] == instance &&
                        forall k :: 0 <= k < r.value - 1 ==> joysticks[k] != instance
    ensures r.None? ==> instance !in joysticks
  {
    if joysticks == [] then None
    else if joysticks[0] == instance then Some(1)
    else
      var r := PlayerOf(joysticks[1..], instance);
      if r.Some? then Some(r.value + 1) else None
  }

  /** The narration keys: Shift+Escape quits; a key with a loaded sound
      toggles it; any other key does nothing. */
  function KeyStep(playing: map<int, bool>, sounds: map<int, bool>, key: int, shift: bool): (r: (bool, map<int, bool>, seq<Narration>))
    requires playing.Keys == sounds.Keys
    ensures r.1.Keys == playing.Keys
    ensures r.0 <==> key == Escape && shift
    ensures r.0 || key !in sounds || !sounds[key] ==> r.1 == playing && r.2 == []
    ensures !r.0 && key in sounds && sounds[key] ==>
              && r.1 == playing[key := !playing[key]]
              && r.2 == [Narration(key, if playing[key] then Stop else Play)]
  {
    if key == Escape && shift then (true, playing, [])
    else if key in sounds && sounds[key] then
      if playing[key] then (false, playing[key := false], [Narration(key, Stop)])
      else (false, playing[key := true], [Narration(key, Play)])
    else (false, playing, [])
  }

  /** Pressing a narration key twice restores its state, having started and
      stopped its sound (or the other way round). */
  lemma NarrationKeyTwice(playing: map<int, bool>, sounds: map<int, bool>, key: int)
    requires playing.Keys == sounds.Keys && key in sounds && sounds[key] && key != Escape
    ensures var once := KeyStep(playing, sounds, key, false);
            var twice := KeyStep(once.1, sounds, key, false);
            twice.1 == playing && once.2 + twice.2 != [] && once.2[0].cmd != twice.2[0].cmd
  {
    var once := KeyStep(playing, sounds, key, false);
    assert once.1[key := !once.1[key]] == playing;
  }

  /** No narration playing, for every key that has a sound entry. */
  function Silence(sounds: map<int, bool>): (m: map<int, bool>)
    ensures m.Keys == sounds.Keys && forall k :: k in m ==> !m[k]
  {
    map k | k in sounds :: false
  }

  /** Everything an event can change, and whether the loop goes on. */
  datatype World = World(states: seq<LayerState>, counter: int, keyPlaying: map<int, bool>, running: bool, narration: seq<Narration>)

  /** The fixed wiring: reset flags, designated reset screen, binding table,
      joysticks, and which narration keys have a sound. */
  datatype Wiring = Wiring(resets: seq<bool>, reset: Option<nat>, bindings: map<Key, seq<nat>>, joysticks: seq<int>, keySounds: map<int, bool>)

  predicate Admits(w: World, g: Wiring) {
    && WellFormed(w.states, g.resets, g.reset)
    && (forall key :: key in g.bindings ==> InRange(g.bindings[key], |w.states|))
    && w.keyPlaying.Keys == g.keySounds.Keys
  }

  /** One event.  Quitting only clears the running flag: the remaining events
      and the drawing of this pass still happen. */
  function Handle(w: World, g: Wiring, e: Event): (r: World)
    requires Admits(w, g)
    ensures Admits(r, g)
  {
    match e
    case Quit => w.(running := false)
    case ButtonDown(instance, button) =>
      var player := PlayerOf(g.joysticks, instance);
      if player.None? || (player.value, button) !in g.bindings then w
      else
        var p := PressAll(w.states, g.resets, g.reset, w.counter, g.bindings[(player.value, button)]);
        w.(states := p.states, counter := p.counter)
    case KeyDown(key, shift) =>
      var k := KeyStep(w.keyPlaying, g.keySounds, key, shift);
      w.(running := w.running && !k.0, keyPlaying := k.1, narration := w.narration + k.2)
    case OtherEvent => w
  }

  /** A button of an unknown joystick, a button with no layer bound, and any
      other kind of event change nothing. */
  lemma IgnoredEventsChangeNothing(w: World, g: Wiring, instance: int, button: int)
    requires Admits(w, g)
    requires PlayerOf(g.joysticks, instance).None? || (PlayerOf(g.joysticks, instance).value, button) !in g.bindings
    ensures Handle(w, g, ButtonDown(instance, button)) == w
    ensures Handle(w, g, OtherEvent) == w
  {
  }

  function HandleAll(w: World, g: Wiring, events: seq<Event>): (r: World)
    requires Admits(w, g)
    ensures Admits(r, g)
  {
    if events == [] then w else Handle(HandleAll(w, g, events[..|events| - 1]), g, events[|events| - 1])
  }

  lemma HandleAllStep(w: World, g: Wiring, events: seq<Event>, k: nat)
    requires Admits(w, g) && k < |events|
    ensures HandleAll(w, g, events[..k + 1]) == Handle(HandleAll(w, g, events[..k]), g, events[k])
  {
    assert events[..k + 1][..k] == events[..k];
  }

  predicate Quits(e: Event) {
    e.Quit? || (e.KeyDown? && e.key == Escape && e.shift)
  }

  /** The loop stops after a pass exactly when one of its events was a quit
      request, and whether it stops has no effect on anything else. */
  lemma {:induction false} QuitOnlyStops(w: World, g: Wiring, events: seq<Event>)
    requires Admits(w, g)
    ensures HandleAll(w, g, events).running <==> w.running && forall k :: 0 <= k < |events| ==> !Quits(events[k])
    ensures HandleAll(w.(running := true), g, events).(running := false) == HandleAll(w.(running := false), g, events)
  {
    if events != [] {
      var init := events[..|events| - 1];
      QuitOnlyStops(w, g, init);
      assert forall k :: 0 <= k < |init| ==> init[k] == events[k];
    }
  }

  /** The invariants of the loop state: the wiring fits it, the designated
      reset screen is exclusive, and no order is above the counter. */
  predicate Invariant(w: World, g: Wiring) {
    && Admits(w, g)
    && Exclusive(w.states, g.resets, g.reset)
    && OrdersBounded(w.states, g.resets, w.counter)
  }

  /** The invariants do not look at the running flag or the narration. */
  lemma InvariantIgnoresFlags(w: World, g: Wiring)
    requires Invariant(w, g)
    ensures Invariant(w.(running := true, narration := []), g)
  {
  }

  /** Every event keeps the invariants and never lowers the counter. */
  lemma HandleKeepsInvariant(w: World, g: Wiring, e: Event)
    requires Invariant(w, g)
    ensures Invariant(Handle(w, g, e), g) && Handle(w, g, e).counter >= w.counter
  {
    if e.ButtonDown? {
      var player := PlayerOf(g.joysticks, e.instance);
      if player.Some? && (player.value, e.button) in g.bindings {
        var bound := g.bindings[(player.value, e.button)];
        PressKeepsExclusive(w.states, g.resets, g.reset, w.counter, bound);
        PressKeepsOrdersBounded(w.states, g.resets, g.reset, w.counter, bound);
      }
    }
  }

  lemma {:induction false} HandleAllKeepsInvariant(w: World, g: Wiring, events: seq<Event>)
    requires Invariant(w, g)
    ensures Invariant(HandleAll(w, g, events), g) && HandleAll(w, g, events).counter >= w.counter
  {
    if events != [] {
      HandleAllKeepsInvariant(w, g, events[..|events| - 1]);
      HandleKeepsInvariant(HandleAll(w, g, events[..|events| - 1]), g, events[|events| - 1]);
    }
  }

  class Exhibit {
    const layers: seq<Layer>
    const bindings: map<Key, seq<nat>>
    const reset: Option<nat>
    const joysticks: seq<int>
    const keySounds: map<int, bool>
    const shared: SharedLegends

    var counter: int
    var keyPlaying: map<int, bool>

    function States(): seq<LayerState>
      reads layers
    {
      StatesOf(layers)
    }

    function Wires(): Wiring {
      Wiring(ResetsOf(layers), reset, bindings, joysticks, keySounds)
    }

    function Snapshot(running: bool, narration: seq<Narration>): World
      reads this, layers
    {
      World(States(), counter, keyPlaying, running, narration)
    }

    predicate Distinct()
    {
      forall i, j :: 0 <= i < j < |layers| ==> layers[i] != layers[j]
    }

    /** Every layer is coherent with its traits. */
    predicate LayersValid()
      reads layers
    {
      forall i :: 0 <= i < |layers| ==> layers[i].Valid()
    }

    ghost predicate Valid()
      reads this, layers
    {
      && Distinct()
      && LayersValid()
      && Invariant(Snapshot(true, []), Wires())
    }

    /** Build the layers, the binding table and the reset screen; every layer
        starts off and invisible, the counter at zero, no narration playing. */
    constructor (setups: seq<Setup>, joysticks: seq<int>, keySounds: map<int, bool>, shared: SharedLegends, now: int)
      ensures Valid()
      ensures |layers| == |setups|
      ensures forall i :: 0 <= i < |setups| ==> layers[i].traits == TraitsOfSetup(setups[i]) && layers[i].legend == setups[i].legend
      ensures forall i :: 0 <= i < |setups| ==> layers[i].State() == Initial(now)
      ensures bindings.Keys == Keys(ConfigsOf(setups))
      ensures forall key :: key in bindings ==> bindings[key] == BoundTo(ConfigsOf(setups), key)
      ensures reset == FirstReset(ResetsOf(layers))
      ensures counter == 0 && keyPlaying == Silence(keySounds)
      ensures this.joysticks == joysticks && this.keySounds == keySounds && this.shared == shared
    {
      var ls := NewLayers(setups, now);
      var table := BuildBindings(ConfigsOf(setups));
      var r := FindReset(ResetsOf(ls));
      layers := ls;
      bindings := table;
      reset := r;
      this.joysticks := joysticks;
      this.keySounds := keySounds;
      this.shared := shared;
      counter := 0;
      keyPlaying := Silence(keySounds);
      new;
      ghost var st := States();
      assert forall i :: 0 <= i < |st| ==> st[i] == Initial(now);
      StartsValid(st, ConfigsOf(setups), ResetsOf(layers), r, table, joysticks, keySounds, now);
      assert Snapshot(true, []) == World(st, 0, Silence(keySounds), true, []);
      assert Wires() == Wiring(ResetsOf(layers), r, table, joysticks, keySounds);
    }

    /** Switch off every layer that is not a reset screen. */
    method SwitchOffOthers()
      requires Distinct()
      modifies layers
      ensures States() == DeactivateOthers(old(States()), ResetsOf(layers))
      ensures old(LayersValid()) ==> LayersValid()
    {
      ghost var before := States();
      ghost var target := DeactivateOthers(before, ResetsOf(layers));
      var j := 0;
      while j < |layers|
        invariant 0 <= j <= |layers|
        invariant forall i :: 0 <= i < j ==> layers[i].State() == target[i]
        invariant forall i :: j <= i < |layers| ==> layers[i].State() == before[i]
        invariant forall i :: 0 <= i < |layers| && old(layers[i].Valid()) ==> layers[i].Valid()
      {
        var c := layers[j];
        if !c.traits.isReset && c.active {
          SwitchOffCoherent(c.State(), c.traits);
          c.active := false;
        }
        j := j + 1;
      }
      StatesAre(layers, target);
    }

    /** Set one layer's switch and order. */
    method SetLayer(p: nat, active: bool, order: int)
      requires Distinct() && p < |layers|
      modifies layers[p]
      ensures States() == old(States())[p := old(States())[p].(active := active, order := order)]
      ensures old(LayersValid()) ==> LayersValid()
    {
      ghost var before := States();
      layers[p].active := active;
      layers[p].order := order;
      forall i | 0 <= i < |layers|
        ensures States()[i] == before[p := before[p].(active := active, order := order)][i]
      {
      }
    }

    /** The handling of one bound layer of a press. */
    method PressLayer(p: nat, counter: int) returns (counter': int)
      requires Distinct() && p < |layers| && reset == FirstReset(ResetsOf(layers))
      modifies layers
      ensures Presses(States(), counter') == PressOne(old(States()), ResetsOf(layers), reset, counter, p)
      ensures old(LayersValid()) ==> LayersValid()
    {
      counter' := counter;
      var layer := layers[p];
      if layer.traits.isReset {
        SwitchOffOthers();
        SetLayer(p, true, counter + 1);
      } else {
        if reset.Some? && layers[reset.value].active {
          SetLayer(reset.value, false, layers[reset.value].order);
        }
        if !layer.active {
          counter' := counter + 1;
          SetLayer(p, true, counter');
        } else {
          SetLayer(p, false, layer.order);
        }
      }
    }

    /** The joystick press handler for a known player. */
    method Press(player: int, button: int)
      requires Distinct() && Admits(Snapshot(true, []), Wires())
      modifies this, layers
      ensures old(LayersValid()) ==> LayersValid()
      ensures (player, button) !in bindings ==> States() == old(States()) && counter == old(counter)
      ensures (player, button) in bindings ==>
                Presses(States(), counter) == PressAll(old(States()), ResetsOf(layers), reset, old(counter), bindings[(player, button)])
      ensures keyPlaying == old(keyPlaying)
    {
      var key := (player, button);
      if key !in bindings {
        return;
      }
      var bound := bindings[key];
      counter := PressEach(bound, counter);
    }

    /** Every layer bound to the pressed button, in table order. */
    method PressEach(bound: seq<nat>, counter: int) returns (counter': int)
      requires Distinct() && InRange(bound, |layers|) && reset == FirstReset(ResetsOf(layers))
      modifies layers
      ensures Presses(States(), counter') == PressAll(old(States()), ResetsOf(layers), reset, counter, bound)
      ensures old(LayersValid()) ==> LayersValid()
    {
      ghost var before := States();
      ghost var resets := ResetsOf(layers);
      ghost var valid := LayersValid();
      counter' := counter;
      var k := 0;
      while k < |bound|
        invariant 0 <= k <= |bound|
        invariant Presses(States(), counter') == PressAll(before, resets, reset, counter, bound[..k])
        invariant valid ==> LayersValid()
      {
        ghost var pre := Presses(States(), counter');
        counter' := PressLayer(bound[k], counter');
        PressEachStep(before, resets, reset, counter, bound, k, pre, Presses(States(), counter'));
        k := k + 1;
      }
      assert bound[..|bound|] == bound;
    }

    /** The joystick lookup: the player of a known joystick. */
    method FindPlayer(instance: int) returns (player: Option<int>)
      ensures player == PlayerOf(joysticks, instance)
    {
      var i := 0;
      while i < |joysticks|
        invariant 0 <= i <= |joysticks|
        invariant forall k :: 0 <= k < i ==> joysticks[k] != instance
      {
        if joysticks[i] == instance {
          PlayerOfFirst(joysticks, instance, i);
          return Some(i + 1);
        }
        i := i + 1;
      }
      return None;
    }

    /** Shift+Escape, or a narration key. */
    method HandleKey(key: int, shift: bool) returns (quit: bool, narration: seq<Narration>)
      requires keyPlaying.Keys == keySounds.Keys
      modifies this
      ensures (quit, keyPlaying, narration) == KeyStep(old(keyPlaying), keySounds, key, shift)
      ensures counter == old(counter)
    {
      quit := false;
      narration := [];
      if key == Escape && shift {
        quit := true;
      } else if key in keySounds && keySounds[key] {
        if keyPlaying[key] {
          narration := [Narration(key, Stop)];
          keyPlaying := keyPlaying[key := false];
        } else {
          narration := [Narration(key, Play)];
          keyPlaying := keyPlaying[key := true];
        }
      }
    }

    /** One event of the loop. */
    method HandleEvent(e: Event, running: bool, narration: seq<Narration>) returns (running': bool, narration': seq<Narration>)
      requires Valid()
      modifies this, layers
      ensures Valid()
      ensures Snapshot(running', narration') == Handle(old(Snapshot(running, narration)), Wires(), e)
    {
      ghost var w := Snapshot(running, narration);
      ghost var after := Handle(w, Wires(), e);
      HandleKeepsInvariant(w, Wires(), e);
      InvariantIgnoresFlags(after, Wires());
      running' := running;
      narration' := narration;
      match e {
        case Quit =>
          running' := false;
        case ButtonDown(instance, button) =>
          var player := FindPlayer(instance);
          if player.Some? {
            Press(player.value, button);
          }
        case KeyDown(key, shift) =>
          var quit, said := HandleKey(key, shift);
          running' := running && !quit;
          narration' := narration + said;
        case OtherEvent =>
      }
      assert Snapshot(running', narration') == after;
      assert Snapshot(true, []) == after.(running := true, narration := []);
    }

    /** Fade, animate and draw the visible layers bottom to top, then the
        legend unless the reset screen is on. */
    method Render(now: int) returns (frame: Frame)
      requires Valid()
      modifies layers
      ensures Valid()
      ensures (States(), frame) == DrawFrame(old(States()), TraitsOf(layers), SourcesOf(layers), reset, shared, now)
    {
      var st := States();
      var order := DrawOrder(st);
      var effects := DrawAll(order, now);
      SameSwitches(st, States(), ResetsOf(layers), reset, counter);
      var legend := NoLegend;
      if !(reset.Some? && layers[reset.value].active) {
        var shown := LegendLayers(order, TraitsOf(layers), SourcesOf(layers));
        legend := DrawLegend(shown, shared);
      }
      frame := Frame(effects, legend);
    }

    /** Every layer of `order` takes its turn, in that order. */
    method DrawAll(order: seq<nat>, now: int) returns (effects: seq<Effect>)
      requires Distinct() && InRange(order, |layers|)
      modifies layers
      ensures (States(), effects) == Composite(old(States()), TraitsOf(layers), order, now)
      ensures old(LayersValid()) ==> LayersValid()
    {
      ghost var st := States();
      effects := [];
      var k := 0;
      while k < |order|
        invariant 0 <= k <= |order|
        invariant (States(), effects) == Composite(st, TraitsOf(layers), order[..k], now)
        invariant old(LayersValid()) ==> LayersValid()
      {
        CompositeStep(st, TraitsOf(layers), order, k, now);
        var more := VisitLayer(order[k], now);
        effects := effects + more;
        k := k + 1;
      }
      assert order[..|order|] == order;
    }

    /** One layer's turn: fade one step toward its target, then draw. */
    method VisitLayer(idx: nat, now: int) returns (effects: seq<Effect>)
      requires Distinct() && idx < |layers|
      modifies layers[idx]
      ensures (States(), effects) == Visit(old(States()), TraitsOf(layers), idx, now)
      ensures old(LayersValid()) ==> LayersValid()
    {
      ghost var before := States();
      var layer := layers[idx];
      var cmd: SoundCmd;
      if layer.active {
        cmd := layer.FadeIn();
      } else {
        cmd := layer.FadeOut();
      }
      ghost var faded := layer.State();
      assert (faded, cmd) == FadeStepFor(before[idx], TraitsOf(layers)[idx]);
      var picture := layer.Draw(now);
      assert (layer.State(), picture) == DrawStep(faded, TraitsOf(layers)[idx], now);
      effects := (if cmd == Silent then [] else [Sound(idx, cmd)]) +
                 (if picture.Some? then [Show(idx, picture.value)] else []);
      forall i | 0 <= i < |layers|
        ensures States()[i] == before[idx := layer.State()][i]
      {
      }
      assert States() == before[idx := layer.State()];
    }

    /** One pass of the main loop: every pending event, then one frame.  The
        result tells whether the loop goes on, and which narration sounds
        started or stopped.  A legend that raises while it is drawn ends the
        program, quit request or not. */
    method Tick(events: seq<Event>, now: int) returns (running: bool, narration: seq<Narration>, frame: Frame)
      requires Valid()
      modifies this, layers
      ensures Valid()
      ensures var w := HandleAll(old(Snapshot(true, [])), Wires(), events);
              && (narration, counter, keyPlaying) == (w.narration, w.counter, w.keyPlaying)
              && (States(), frame) == DrawFrame(w.states, TraitsOf(layers), SourcesOf(layers), reset, shared, now)
              && (running <==> w.running && !LegendRaises(frame.legend))
    {
      running, narration := HandleEvents(events);
      frame := Render(now);
      if LegendRaises(frame.legend) {
        running := false;
      }
    }

    /** Every pending event of a pass, in order. */
    method HandleEvents(events: seq<Event>) returns (running: bool, narration: seq<Narration>)
      requires Valid()
      modifies this, layers
      ensures Valid()
      ensures Snapshot(running, narration) == HandleAll(old(Snapshot(true, [])), Wires(), events)
    {
      running := true;
      narration := [];
      ghost var start := Snapshot(true, []);
      var k := 0;
      while k < |events|
        invariant 0 <= k <= |events|
        invariant Valid()
        invariant Snapshot(running, narration) == HandleAll(start, Wires(), events[..k])
      {
        HandleAllStep(start, Wires(), events, k);
        running, narration := HandleEvent(events[k], running, narration);
        k := k + 1;
      }
      assert events[..|events|] == events;
    }
  }

  /** One fresh layer per setup, each off, invisible and coherent. */
  method NewLayers(setups: seq<Setup>, now: int) returns (ls: seq<Layer>)
    ensures |ls| == |setups|
    ensures forall a, b :: 0 <= a < b < |ls| ==> ls[a] != ls[b]
    ensures forall k :: 0 <= k < |ls| ==> fresh(ls[k])
    ensures forall k :: 0 <= k < |ls| ==> ls[k].traits == TraitsOfSetup(setups[k]) && ls[k].legend == setups[k].legend
    ensures forall k :: 0 <= k < |ls| ==> ls[k].State() == Initial(now) && ls[k].Valid()
  {
    ls := [];
    var i := 0;
    while i < |setups|
      invariant 0 <= i <= |setups| && |ls| == i
      invariant forall a, b :: 0 <= a < b < i ==> ls[a] != ls[b]
      invariant forall k :: 0 <= k < i ==> fresh(ls[k])
      invariant forall k :: 0 <= k < i ==> ls[k].traits == TraitsOfSetup(setups[k]) && ls[k].legend == setups[k].legend
      invariant forall k :: 0 <= k < i ==> ls[k].State() == Initial(now) && ls[k].Valid()
    {
      var s := setups[i];
      var l := new Layer(s.config.name, s.config.file, TraitsOfSetup(s), s.legend, now);
      ls := ls + [l];
      i := i + 1;
    }
  }

  /** Switching a layer off keeps it coherent. */
  lemma SwitchOffCoherent(s: LayerState, t: Traits)
    ensures Coherent(s, t) ==> Coherent(s.(active := false), t)
  {
  }

  /** One more bound layer handled extends the press by one step. */
  lemma PressEachStep(st: seq<LayerState>, resets: seq<bool>, reset: Option<nat>, counter: int, bound: seq<nat>, k: nat,
                      pre: Presses, post: Presses)
    requires WellFormed(st, resets, reset) && InRange(bound, |st|) && k < |bound|
    requires pre == PressAll(st, resets, reset, counter, bound[..k])
    requires post == PressOne(pre.states, resets, reset, pre.counter, bound[k])
    ensures post == PressAll(st, resets, reset, counter, bound[..k + 1])
  {
    PressAllStep(st, resets, reset, counter, bound, k);
  }

  /** The reset screen's exclusivity and the order bound depend only on which
      layers are on and on their orders. */
  lemma SameSwitches(st: seq<LayerState>, st': seq<LayerState>, resets: seq<bool>, reset: Option<nat>, counter: int)
    requires WellFormed(st, resets, reset) && |st'| == |st|
    requires forall i :: 0 <= i < |st| ==> st'[i].active == st[i].active && st'[i].order == st[i].order
    requires Exclusive(st, resets, reset) && OrdersBounded(st, resets, counter)
    ensures Exclusive(st', resets, reset) && OrdersBounded(st', resets, counter)
  {
  }

  /** Every index in a binding table names a configuration. */
  lemma TableInRange(configs: seq<LayerConfig>, table: map<Key, seq<nat>>)
    requires forall key :: key in table ==> table[key] == BoundTo(configs, key)
    ensures forall key :: key in table ==> InRange(table[key], |configs|)
  {
    forall key | key in table
      ensures InRange(table[key], |configs|)
    {
      BoundToMeaning(configs, key);
    }
  }

  /** With every layer off and unordered, the reset screen is trivially
      exclusive and no order exceeds a zero counter. */
  lemma InitialInvariants(st: seq<LayerState>, resets: seq<bool>, reset: Option<nat>, now: int)
    requires WellFormed(st, resets, reset)
    requires forall i :: 0 <= i < |st| ==> st[i] == Initial(now)
    ensures Exclusive(st, resets, reset) && OrdersBounded(st, resets, 0)
  {
  }

  lemma StatesAre(ls: seq<Layer>, s: seq<LayerState>)
    requires |ls| == |s| && forall i :: 0 <= i < |ls| ==> ls[i].State() == s[i]
    ensures StatesOf(ls) == s
  {
  }

  /** The state the exhibit starts in satisfies the invariants. */
  lemma StartsValid(st: seq<LayerState>, configs: seq<LayerConfig>, resets: seq<bool>, reset: Option<nat>,
                    table: map<Key, seq<nat>>, joysticks: seq<int>, keySounds: map<int, bool>, now: int)
    requires |st| == |configs| && WellFormed(st, resets, reset)
    requires forall i :: 0 <= i < |st| ==> st[i] == Initial(now)
    requires forall key :: key in table ==> table[key] == BoundTo(configs, key)
    ensures Invariant(World(st, 0, Silence(keySounds), true, []), Wiring(resets, reset, table, joysticks, keySounds))
  {
    TableInRange(configs, table);
    InitialInvariants(st, resets, reset, now);
  }

  lemma PlayerOfFirst(joysticks: seq<int>, instance: int, i: nat)
    requires i < |joysticks| && joysticks[i] == instance
    requires forall k :: 0 <= k < i ==> joysticks[k] != instance
    ensures PlayerOf(joysticks, instance) == Some(i + 1)
  {
  }
}
