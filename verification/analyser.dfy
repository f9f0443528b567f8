/**
 * The audio analyser hook (music-frontend/src/hooks/useAudioAnalyzer.ts). Audio elements and
 * audio contexts are identified by numbers; the Web Audio graph itself is not modelled.
 * A module-level weak map gives each element one analyser bundle, created on first use and
 * kept (its context is never closed) across unmounts.
 */
module AudioAnalyser {
  import opened Wrappers
  import Js

  const FftSize: nat := 4096

  type Element = nat

  datatype Bundle = Bundle(ctx: nat, fftSize: nat)

  /** The weak map, plus the elements in the order their bundles were created. */
  datatype Registry = Registry(bundles: map<Element, Bundle>, created: seq<Element>, nextCtx: nat)

  const EmptyRegistry := Registry(map[], [], 0)

  /** Every created element has one bundle with its own context and the 4096-point FFT. */
  ghost predicate Valid(r: Registry) {
    && (forall e :: e in r.bundles <==> e in r.created)
    && (forall a, b :: 0 <= a < b < |r.created| ==> r.created[a] != r.created[b])
    && (forall e :: e in r.bundles ==> r.bundles[e].ctx < r.nextCtx && r.bundles[e].fftSize == FftSize)
    && (forall e1, e2 :: e1 in r.bundles && e2 in r.bundles && e1 != e2 ==>
          r.bundles[e1].ctx != r.bundles[e2].ctx)
  }

  /** The effect's lookup: reuse the element's bundle, or create one with a fresh context. */
  function Attach(r: Registry, el: Element): (res: (Registry, Bundle))
    ensures el in r.bundles ==> res == (r, r.bundles[el])
    ensures el !in r.bundles ==>
      && res.1 == Bundle(r.nextCtx, FftSize)
      && res.0 == Registry(r.bundles[el := res.1], r.created + [el], r.nextCtx + 1)
  {
    if el in r.bundles then (r, r.bundles[el])
    else
      var b := Bundle(r.nextCtx, FftSize);
      (Registry(r.bundles[el := b], r.created + [el], r.nextCtx + 1), b)
  }

  lemma AttachValid(r: Registry, el: Element)
    requires Valid(r)
    ensures Valid(Attach(r, el).0)
    ensures Attach(r, el).0.bundles[el] == Attach(r, el).1
    ensures forall e :: e in r.bundles ==> e in Attach(r, el).0.bundles && Attach(r, el).0.bundles[e] == r.bundles[e]
  {
    if el !in r.bundles {
      var r2 := Attach(r, el).0;
      forall a, b | 0 <= a < b < |r2.created|
        ensures r2.created[a] != r2.created[b]
      {
        if b == |r.created| {
          assert r.created[a] in r.bundles;
        }
      }
    }
  }

  /** Remounting on the same element reuses its bundle: a second attach changes nothing. */
  lemma AttachIdempotent(r: Registry, el: Element)
    ensures Attach(Attach(r, el).0, el) == Attach(r, el)
  {
  }

  /** Mounting the hook on a sequence of elements: one context per distinct element. */
  function AttachAll(r: Registry, els: seq<Element>): Registry
    decreases |els|
  {
    if els == [] then r else AttachAll(Attach(r, els[0]).0, els[1..])
  }

  /** Mounting on a sequence of elements keeps every registry invariant. */
  lemma {:induction false} AttachAllValid(r: Registry, els: seq<Element>)
    requires Valid(r)
    ensures Valid(AttachAll(r, els))
    decreases |els|
  {
    if els != [] {
      AttachValid(r, els[0]);
      AttachAllValid(Attach(r, els[0]).0, els[1..]);
    }
  }

  /**
   * Mounting on any sequence of elements registers exactly the elements seen, appends to the
   * creation log and never replaces an existing bundle.
   */
  lemma {:induction false} AttachAllGrows(r: Registry, els: seq<Element>)
    ensures var r2 := AttachAll(r, els);
      && |r.created| <= |r2.created|
      && r2.created[..|r.created|] == r.created
      && (forall e :: e in r2.bundles <==> e in r.bundles || e in els)
      && (forall e :: e in r.bundles ==> r2.bundles[e] == r.bundles[e])
    decreases |els|
  {
    if els != [] {
      var el := els[0];
      var r1 := Attach(r, el).0;
      AttachAllGrows(r1, els[1..]);
      var r2 := AttachAll(r1, els[1..]);
      assert r1.created[..|r.created|] == r.created;
      assert r2.created[..|r.created|] == r2.created[..|r1.created|][..|r.created|];
      assert forall e :: e in els <==> e == el || e in els[1..];
    }
  }

  /** Hence from an empty registry each distinct element gets exactly one bundle and context. */
  lemma OneContextPerElement(els: seq<Element>)
    ensures var r := AttachAll(EmptyRegistry, els);
      && (forall e :: e in r.created <==> e in els)
      && (forall a, b :: 0 <= a < b < |r.created| ==> r.created[a] != r.created[b])
      && (forall e :: e in r.bundles <==> e in els)
      && (forall e :: e in r.bundles ==> r.bundles[e].fftSize == FftSize)
      && (forall e1, e2 :: e1 in r.bundles && e2 in r.bundles && e1 != e2 ==> r.bundles[e1].ctx != r.bundles[e2].ctx)
  {
    AttachAllValid(EmptyRegistry, els);
    AttachAllGrows(EmptyRegistry, els);
  }

  /** What the media element reports at a frame. */
  datatype Media = Media(currentTime: Js.Number, duration: Js.Number, paused: bool)

  datatype AnalyzerState = AnalyzerState(
    timeDomain: Option<seq<real>>, currentTime: Js.Number, duration: Js.Number, isPlaying: bool)

  /** Before the first frame, and for ever when there is no element. */
  const InitialState := AnalyzerState(None, Js.Finite(0.0), Js.Finite(0.0), false)

  /**
   * One animation frame: a copy of the analyser's time-domain buffer, and the element's
   * time and duration with NaN and 0 read as 0 (`x || 0`).
   */
  function Tick(b: Bundle, buffer: seq<real>, m: Media): (s: AnalyzerState)
    requires |buffer| == b.fftSize
    ensures s.timeDomain == Some(buffer) && |s.timeDomain.value| == b.fftSize
    ensures s.currentTime.Truthy() ==> s.currentTime == m.currentTime
    ensures !s.currentTime.Truthy() ==> s.currentTime == Js.Finite(0.0) && !m.currentTime.Truthy()
    ensures s.duration == (if m.duration.Truthy() then m.duration else Js.Finite(0.0))
    ensures s.isPlaying <==> !m.paused
  {
    AnalyzerState(Some(buffer), Js.Or(m.currentTime, Js.Finite(0.0)), Js.Or(m.duration, Js.Finite(0.0)), !m.paused)
  }

  datatype ContextState = Suspended | Running | Closed

  /** The element's `play` handler resumes a suspended context and leaves any other state. */
  function OnPlay(s: ContextState): (r: ContextState)
    ensures s.Suspended? ==> r.Running?
    ensures !s.Suspended? ==> r == s
  {
    if s.Suspended? then Running else s
  }

  /**
   * One mounted hook: the bundle its effect took, whether its `play` listener is attached,
   * and the animation-frame request it holds (the id `requestAnimationFrame` returned).
   */
  datatype Hook = Hook(bundle: Option<Bundle>, listening: bool, frame: Option<nat>)

  const Idle := Hook(None, false, None)

  /**
   * The hook's effect: without an element nothing is attached; with one it takes the
   * element's bundle from the registry (creating it once), attaches the `play` listener and
   * requests the first frame, whose id is a parameter.
   */
  function Mount(r: Registry, el: Option<Element>, frameId: nat): (res: (Registry, Hook))
    ensures el.None? ==> res == (r, Idle)
    ensures el.Some? ==>
      && res.1.bundle.Some? && res.1.listening && res.1.frame == Some(frameId)
      && el.value in res.0.bundles && res.0.bundles[el.value] == res.1.bundle.value
    ensures el.Some? && el.value in r.bundles ==> res.0 == r && res.1.bundle == Some(r.bundles[el.value])
    ensures el.Some? && el.value !in r.bundles ==>
      res.1.bundle == Some(Bundle(r.nextCtx, FftSize)) && res.0.nextCtx == r.nextCtx + 1
  {
    match el
    case None => (r, Idle)
    case Some(e) => (Attach(r, e).0, Hook(Some(Attach(r, e).1), true, Some(frameId)))
  }

  /**
   * The effect's cleanup: the listener is removed and a truthy frame id is cancelled; the
   * registry, and so every bundle and its context, stays as it was (contexts are never closed).
   */
  function Unmount(r: Registry, h: Hook): (res: (Registry, Hook))
    ensures res.0 == r
    ensures !res.1.listening && res.1.bundle == h.bundle
    ensures h.frame.Some? && h.frame.value != 0 ==> res.1.frame.None?
    ensures h.frame.None? || h.frame.value == 0 ==> res.1.frame == h.frame
  {
    (r, h.(listening := false, frame := if h.frame.Some? && h.frame.value != 0 then None else h.frame))
  }

  /**
   * Mounting again after a cleanup reuses the element's bundle and creates no second context:
   * the registry comes back unchanged.
   */
  lemma RemountAfterCleanup(r: Registry, e: Element, first: nat, second: nat)
    ensures var (r1, h1) := Mount(r, Some(e), first);
      var (r2, _) := Unmount(r1, h1);
      && Mount(r2, Some(e), second) == (r1, Hook(h1.bundle, true, Some(second)))
      && r2.nextCtx == r1.nextCtx
  {
  }

  /** Cleanup after any mount leaves no listener and, for a non-zero frame id, no pending frame. */
  lemma CleanupStops(r: Registry, el: Option<Element>, frameId: nat)
    requires frameId != 0
    ensures var (r1, h1) := Mount(r, el, frameId);
      var (r2, h2) := Unmount(r1, h1);
      r2 == r1 && !h2.listening && h2.frame.None?
  {
  }
}
