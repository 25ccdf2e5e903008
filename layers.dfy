/** One map layer (`ImagenConFade`): its fade toward full or zero opacity, its
    edge-triggered sound, and its animation frame.  The step functions here
    are the specification; class `Layer` holds the same state in fields and
    updates it in place. */
module Layers {
  import opened Wrappers
  import opened LegendElements

  const FadeStep := 15
  /** Milliseconds between two animation frames. */
  const AnimationInterval := 100

  /** What a step asks of the mixer. */
  datatype SoundCmd = Silent | Play | Stop

  /** What a layer is configured with: whether it is the reset screen, its
      full opacity, whether a sound was loaded for it, and how many frames its
      image has (none without an image file). */
  datatype Traits = Traits(isReset: bool, maxAlpha: nat, hasSound: bool, frameCount: nat)

  datatype LayerState = LayerState(active: bool, order: int, alpha: int, frame: nat, lastUpdate: int, playing: bool)

  /** A picture as it is handed to the screen: which frame, at which opacity. */
  datatype Picture = Picture(frame: nat, alpha: int)

  function Initial(now: int): LayerState {
    LayerState(false, 0, 0, 0, now, false)
  }

  function Min(a: int, b: int): int { if a < b then a else b }
  function Max(a: int, b: int): int { if a < b then b else a }

  /** The invariant every layer keeps: opacity within bounds; the sound plays
      only if there is one and the layer is not invisible; a fully visible
      layer with a sound is playing it; the frame index is valid. */
  predicate Coherent(s: LayerState, t: Traits) {
    && 0 <= s.alpha <= t.maxAlpha
    && (s.playing ==> t.hasSound && s.alpha > 0)
    && (t.hasSound && t.maxAlpha > 0 && s.alpha == t.maxAlpha ==> s.playing)
    && (if t.frameCount == 0 then s.frame == 0 else s.frame < t.frameCount)
  }

  lemma InitialCoherent(t: Traits, now: int)
    ensures Coherent(Initial(now), t)
  {
  }

  /** `reproducir_sonido`: start the sound unless there is none or it plays. */
  function SoundOn(s: LayerState, t: Traits): (r: (LayerState, SoundCmd))
    ensures r.1 == Play <==> t.hasSound && !s.playing
    ensures r.1 != Stop
    ensures r.0.playing == (s.playing || t.hasSound)
    ensures r.0 == s.(playing := r.0.playing)
  {
    if t.hasSound && !s.playing then (s.(playing := true), Play) else (s, Silent)
  }

  /** `detener_sonido`: stop the sound if there is one and it plays. */
  function SoundOff(s: LayerState, t: Traits): (r: (LayerState, SoundCmd))
    ensures r.1 == Stop <==> t.hasSound && s.playing
    ensures r.1 != Play
    ensures r.0.playing == (s.playing && !t.hasSound)
    ensures r.0 == s.(playing := r.0.playing)
  {
    if t.hasSound && s.playing then (s.(playing := false), Stop) else (s, Silent)
  }

  /** `fade_in`: at most one step of 15 toward full opacity, playing the
      sound on the step that reaches it. */
  function FadeInStep(s: LayerState, t: Traits): (r: (LayerState, SoundCmd))
    ensures s.alpha >= t.maxAlpha ==> r == (s, Silent)
    ensures s.alpha < t.maxAlpha ==>
              && s.alpha < r.0.alpha <= s.alpha + FadeStep
              && r.0.alpha <= t.maxAlpha
              && (r.0.alpha == t.maxAlpha || r.0.alpha == s.alpha + FadeStep)
    ensures r.1 == Play <==> s.alpha < t.maxAlpha && r.0.alpha == t.maxAlpha && t.hasSound && !s.playing
    ensures r.1 != Stop
    ensures r.0.playing == (s.playing || r.1 == Play)
    ensures r.0 == s.(alpha := r.0.alpha, playing := r.0.playing)
    ensures Coherent(s, t) ==> Coherent(r.0, t)
  {
    if s.alpha < t.maxAlpha then
      var faded := s.(alpha := Min(s.alpha + FadeStep, t.maxAlpha));
      if faded.alpha == t.maxAlpha then SoundOn(faded, t) else (faded, Silent)
    else (s, Silent)
  }

  /** `fade_out`: at most one step of 15 toward invisibility, stopping the
      sound on the step that reaches it. */
  function FadeOutStep(s: LayerState, t: Traits): (r: (LayerState, SoundCmd))
    ensures s.alpha <= 0 ==> r == (s, Silent)
    ensures s.alpha > 0 ==>
              && s.alpha - FadeStep <= r.0.alpha < s.alpha
              && 0 <= r.0.alpha
              && (r.0.alpha == 0 || r.0.alpha == s.alpha - FadeStep)
    ensures r.1 == Stop <==> s.alpha > 0 && r.0.alpha == 0 && t.hasSound && s.playing
    ensures r.1 != Play
    ensures r.0.playing == (s.playing && r.1 != Stop)
    ensures r.0 == s.(alpha := r.0.alpha, playing := r.0.playing)
    ensures Coherent(s, t) ==> Coherent(r.0, t)
  {
    if s.alpha > 0 then
      var faded := s.(alpha := Max(s.alpha - FadeStep, 0));
      if faded.alpha == 0 then SoundOff(faded, t) else (faded, Silent)
    else (s, Silent)
  }

  /** The fade a tick applies: in for an active layer, out for another. */
  function FadeStepFor(s: LayerState, t: Traits): (r: (LayerState, SoundCmd))
    ensures Coherent(s, t) ==> Coherent(r.0, t)
  {
    if s.active then FadeInStep(s, t) else FadeOutStep(s, t)
  }

  /** `actualizar_animacion`: with frames, and more than the interval since
      the last change, advance one frame (wrapping) and remember the time;
      otherwise nothing changes. */
  function AnimateStep(s: LayerState, t: Traits, now: int): (r: LayerState)
    ensures t.frameCount == 0 || now - s.lastUpdate <= AnimationInterval ==> r == s
    ensures t.frameCount > 0 && now - s.lastUpdate > AnimationInterval ==>
              && r.lastUpdate == now
              && (s.frame < t.frameCount ==> r.frame == if s.frame + 1 == t.frameCount then 0 else s.frame + 1)
              && r == s.(frame := r.frame, lastUpdate := now)
    ensures t.frameCount > 0 ==> r.frame < t.frameCount || r == s
    ensures Coherent(s, t) ==> Coherent(r, t)
  {
    if t.frameCount > 0 && now - s.lastUpdate > AnimationInterval then
      s.(frame := (s.frame + 1) % t.frameCount, lastUpdate := now)
    else s
  }

  /** `dibujar`: a layer with frames animates and shows its current frame at
      its current opacity; a layer without frames shows nothing. */
  function DrawStep(s: LayerState, t: Traits, now: int): (r: (LayerState, Option<Picture>))
    ensures r.1.Some? <==> t.frameCount > 0
    ensures r.1.Some? ==> r.1.value == Picture(r.0.frame, s.alpha)
    ensures Coherent(s, t) ==> Coherent(r.0, t) && (r.1.Some? ==> r.1.value.frame < t.frameCount)
    ensures r.0 == AnimateStep(s, t, now)
  {
    if t.frameCount > 0 then
      var animated := AnimateStep(s, t, now);
      (animated, Some(Picture(animated.frame, animated.alpha)))
    else (s, None)
  }

  /** `k` fade-ins in a row. */
  function FadeInTimes(s: LayerState, t: Traits, k: nat): LayerState {
    if k == 0 then s else FadeInStep(FadeInTimes(s, t, k - 1), t).0
  }

  /** `k` fade-outs in a row. */
  function FadeOutTimes(s: LayerState, t: Traits, k: nat): LayerState {
    if k == 0 then s else FadeOutStep(FadeOutTimes(s, t, k - 1), t).0
  }

  /** After `k` fade-ins the opacity is `min(alpha + 15k, max_alpha)`; once
      it is full, a layer with a sound is playing it. */
  lemma {:induction false} FadeInReaches(s: LayerState, t: Traits, k: nat)
    requires Coherent(s, t)
    ensures FadeInTimes(s, t, k).alpha == Min(s.alpha + FadeStep * k, t.maxAlpha)
    ensures Coherent(FadeInTimes(s, t, k), t)
    ensures s.alpha + FadeStep * k >= t.maxAlpha > 0 ==> FadeInTimes(s, t, k).playing == t.hasSound
  {
    if k > 0 {
      FadeInReaches(s, t, k - 1);
    }
  }

  /** After `k` fade-outs the opacity is `max(alpha - 15k, 0)`; once it is
      zero the sound is stopped. */
  lemma {:induction false} FadeOutReaches(s: LayerState, t: Traits, k: nat)
    requires Coherent(s, t)
    ensures FadeOutTimes(s, t, k).alpha == Max(s.alpha - FadeStep * k, 0)
    ensures Coherent(FadeOutTimes(s, t, k), t)
    ensures s.alpha - FadeStep * k <= 0 ==> !FadeOutTimes(s, t, k).playing
  {
    if k > 0 {
      FadeOutReaches(s, t, k - 1);
    }
  }

  /** A run of ticks: `true` fades in, `false` fades out.  The result is the
      last state and the sound commands issued, Silent ones omitted. */
  function Run(s: LayerState, t: Traits, dirs: seq<bool>): (LayerState, seq<SoundCmd>) {
    if dirs == [] then (s, [])
    else
      var prev := Run(s, t, dirs[..|dirs| - 1]);
      var step := if dirs[|dirs| - 1] then FadeInStep(prev.0, t) else FadeOutStep(prev.0, t);
      (step.0, if step.1 == Silent then prev.1 else prev.1 + [step.1])
  }

  /** However the fades alternate, Play and Stop alternate: neither is issued
      twice in a row, the first one issued is Play exactly when the sound was
      not playing, and the last one issued tells whether it plays now. */
  lemma {:induction false} SoundsAlternate(s: LayerState, t: Traits, dirs: seq<bool>)
    ensures forall i :: 0 <= i < |Run(s, t, dirs).1| ==> Run(s, t, dirs).1[i] != Silent
    ensures forall i :: 0 <= i < |Run(s, t, dirs).1| - 1 ==> Run(s, t, dirs).1[i] != Run(s, t, dirs).1[i + 1]
    ensures |Run(s, t, dirs).1| > 0 ==> (Run(s, t, dirs).1[0] == Play <==> !s.playing)
    ensures |Run(s, t, dirs).1| > 0 ==>
              (Run(s, t, dirs).1[|Run(s, t, dirs).1| - 1] == Play <==> Run(s, t, dirs).0.playing)
    ensures |Run(s, t, dirs).1| == 0 ==> Run(s, t, dirs).0.playing == s.playing
  {
    if dirs != [] {
      SoundsAlternate(s, t, dirs[..|dirs| - 1]);
    }
  }

  /** Animation times that each come more than the interval after the
      previous change. */
  predicate Spaced(last: int, times: seq<int>) {
    forall i :: 0 <= i < |times| ==> times[i] - Previous(last, times, i) > AnimationInterval
  }

  /** The time of the change before the `i`-th. */
  function Previous(last: int, times: seq<int>, i: nat): int
    requires i < |times|
  {
    if i == 0 then last else times[i - 1]
  }

  function AnimateAll(s: LayerState, t: Traits, times: seq<int>): LayerState {
    if times == [] then s else AnimateStep(AnimateAll(s, t, times[..|times| - 1]), t, times[|times| - 1])
  }

  /** The frame after `f`, wrapping at `n`. */
  function NextOf(f: nat, n: nat): nat {
    if f + 1 == n then 0 else f + 1
  }

  /** `k` frames after `f`, one at a time. */
  function Cycled(f: nat, n: nat, k: nat): nat {
    if k == 0 then f else NextOf(Cycled(f, n, k - 1), n)
  }

  /** Frames cycle: `k` well-spaced updates advance the frame by `k` modulo the
      frame count and leave the last of those times as the update time. */
  lemma FramesCycle(s: LayerState, t: Traits, times: seq<int>)
    requires t.frameCount > 0 && s.frame < t.frameCount
    requires Spaced(s.lastUpdate, times)
    ensures AnimateAll(s, t, times).frame == (s.frame + |times|) % t.frameCount
    ensures times != [] ==> AnimateAll(s, t, times).lastUpdate == times[|times| - 1]
  {
    FramesStep(s, t, times);
    CycledIsMod(s.frame, t.frameCount, |times|);
  }

  lemma {:induction false} FramesStep(s: LayerState, t: Traits, times: seq<int>)
    requires t.frameCount > 0 && s.frame < t.frameCount
    requires Spaced(s.lastUpdate, times)
    ensures AnimateAll(s, t, times).frame == Cycled(s.frame, t.frameCount, |times|)
    ensures AnimateAll(s, t, times).frame < t.frameCount
    ensures times != [] ==> AnimateAll(s, t, times).lastUpdate == times[|times| - 1]
  {
    if times != [] {
      var k := |times| - 1;
      var init := times[..k];
      SpacedPrefix(s.lastUpdate, times);
      FramesStep(s, t, init);
      var prev := AnimateAll(s, t, init);
      assert prev.lastUpdate == Previous(s.lastUpdate, times, k) by {
        if k > 0 {
          assert init[k - 1] == times[k - 1];
        }
      }
      assert times[k] - Previous(s.lastUpdate, times, k) > AnimationInterval;
    }
  }

  /** Stepping `k` frames one at a time is adding `k` modulo `n`. */
  lemma {:induction false} CycledIsMod(f: nat, n: nat, k: nat)
    requires f < n
    ensures Cycled(f, n, k) == (f + k) % n
  {
    if k == 0 {
      ModUnique(f, n, 0, f);
    } else {
      CycledIsMod(f, n, k - 1);
      NextOfMod(f + k - 1, n);
    }
  }

  /** The frame after a remainder is the remainder of the successor. */
  lemma NextOfMod(a: nat, n: nat)
    requires n > 0
    ensures NextOf(a % n, n) == (a + 1) % n
  {
    ModSucc(a, n);
  }

  lemma AnimateAdvances(s: LayerState, t: Traits, now: int)
    requires t.frameCount > 0 && now - s.lastUpdate > AnimationInterval
    ensures AnimateStep(s, t, now).frame == (s.frame + 1) % t.frameCount
    ensures AnimateStep(s, t, now).lastUpdate == now
  {
  }

  lemma SpacedPrefix(last: int, times: seq<int>)
    requires times != [] && Spaced(last, times)
    ensures Spaced(last, times[..|times| - 1])
  {
    var init := times[..|times| - 1];
    forall i | 0 <= i < |init|
      ensures init[i] - Previous(last, init, i) > AnimationInterval
    {
      assert times[i] - Previous(last, times, i) > AnimationInterval;
      assert i > 0 ==> init[i - 1] == times[i - 1];
    }
  }

  lemma ModSucc(a: nat, n: nat)
    requires n > 0
    ensures (a % n + 1) % n == (a + 1) % n
  {
    var q := a / n;
    var r := a % n;
    if r + 1 < n {
      ModUnique(r + 1, n, 0, r + 1);
      ModUnique(a + 1, n, q, r + 1);
    } else {
      ModUnique(r + 1, n, 1, 0);
      assert a + 1 == (q + 1) * n;
      ModUnique(a + 1, n, q + 1, 0);
    }
  }

  /** The remainder is the only value below the divisor that differs from the
      dividend by a multiple of it. */
  lemma ModUnique(x: int, n: int, q: int, r: int)
    requires n > 0 && 0 <= r < n && x == q * n + r
    ensures x % n == r
  {
    var d := q - x / n;
    assert d * n == x % n - r;
  }

  /** A map layer. */
  class Layer {
    const name: string
    const file: string
    const traits: Traits
    const legend: LegendSource

    var active: bool
    var order: int
    var alpha: int
    var frame: nat
    var lastUpdate: int
    var playing: bool

    function State(): LayerState
      reads this
    {
      LayerState(active, order, alpha, frame, lastUpdate, playing)
    }

    predicate Valid()
      reads this
    {
      Coherent(State(), traits)
    }

    constructor (name: string, file: string, traits: Traits, legend: LegendSource, now: int)
      ensures this.name == name && this.file == file && this.traits == traits && this.legend == legend
      ensures State() == Initial(now)
      ensures Valid()
    {
      this.name := name;
      this.file := file;
      this.traits := traits;
      this.legend := legend;
      active := false;
      order := 0;
      alpha := 0;
      frame := 0;
      lastUpdate := now;
      playing := false;
    }

    method PlaySound() returns (cmd: SoundCmd)
      modifies this
      ensures (State(), cmd) == SoundOn(old(State()), traits)
    {
      cmd := Silent;
      if traits.hasSound && !playing {
        cmd := Play;
        playing := true;
      }
    }

    method StopSound() returns (cmd: SoundCmd)
      modifies this
      ensures (State(), cmd) == SoundOff(old(State()), traits)
    {
      cmd := Silent;
      if traits.hasSound && playing {
        cmd := Stop;
        playing := false;
      }
    }

    method FadeIn() returns (cmd: SoundCmd)
      modifies this
      ensures (State(), cmd) == FadeInStep(old(State()), traits)
      ensures old(Valid()) ==> Valid()
    {
      cmd := Silent;
      if alpha < traits.maxAlpha {
        alpha := Min(alpha + FadeStep, traits.maxAlpha);
        if alpha == traits.maxAlpha {
          cmd := PlaySound();
        }
      }
    }

    method FadeOut() returns (cmd: SoundCmd)
      modifies this
      ensures (State(), cmd) == FadeOutStep(old(State()), traits)
      ensures old(Valid()) ==> Valid()
    {
      cmd := Silent;
      if alpha > 0 {
        alpha := Max(alpha - FadeStep, 0);
        if alpha == 0 {
          cmd := StopSound();
        }
      }
    }

    method Animate(now: int)
      modifies this
      ensures State() == AnimateStep(old(State()), traits, now)
      ensures old(Valid()) ==> Valid()
    {
      if traits.frameCount > 0 && now - lastUpdate > AnimationInterval {
        frame := (frame + 1) % traits.frameCount;
        lastUpdate := now;
      }
    }

    method Draw(now: int) returns (picture: Option<Picture>)
      modifies this
      ensures (State(), picture) == DrawStep(old(State()), traits, now)
      ensures old(Valid()) ==> Valid()
    {
      picture := None;
      if traits.frameCount > 0 {
        Animate(now);
        picture := Some(Picture(frame, alpha));
      }
    }
  }
}
