/** The render scheduler of `Mandy.java`: the UI thread records every requested
    `WindowState` and queues the ones that differ from the previous request; the
    control thread takes what is queued, keeps only the newest request and renders
    it with a palette memoised per iteration limit. Threads are not modelled: each
    handler call and each pass of the control loop is one method call. */
module Mandy {
  import opened Java
  import opened Ieee754
  import opened WindowStates
  import Mandelbrot

  /** A `LinkedBlockingQueue` made without a capacity holds `Integer.MAX_VALUE`
      elements; `offer` fails beyond that. */
  const QUEUE_CAPACITY: nat := 0x7FFF_FFFF

  /** Bounds and step of the exponential zoom spinner. */
  const ZOOM_MIN: real := -1.0
  const ZOOM_MAX: real := 150.0
  const ZOOM_STEP: real := 0.1

  /** The state the current-state reference starts with: every field zero. */
  function InitialState(): WindowState {
    WindowState(0, 0, 0, 0, 0, 0, 0)
  }

  // ---------------------------------------------------------------------------
  // The wheel handler's zoom update

  /** `mouseWheelMoved`: one wheel notch moves the zoom spinner by one step against
      the rotation, clamped to the spinner's bounds. */
  function WheelZoom(val: real, rotation: int): (r: real)
    ensures ZOOM_MIN <= r <= ZOOM_MAX
    ensures ZOOM_MIN <= val - rotation as real * ZOOM_STEP <= ZOOM_MAX ==> r == val - rotation as real * ZOOM_STEP
    ensures val - rotation as real * ZOOM_STEP < ZOOM_MIN ==> r == ZOOM_MIN
    ensures val - rotation as real * ZOOM_STEP > ZOOM_MAX ==> r == ZOOM_MAX
  {
    var nv := val - rotation as real * ZOOM_STEP;
    Min(ZOOM_MAX, Max(ZOOM_MIN, nv))
  }

  function Min(a: real, b: real): real {
    if a <= b then a else b
  }

  function Max(a: real, b: real): real {
    if a >= b then a else b
  }

  /** Rolling the wheel back by the same number of notches restores a zoom that
      stayed inside the bounds. */
  lemma WheelZoomUndo(val: real, rotation: int)
    requires ZOOM_MIN <= val - rotation as real * ZOOM_STEP <= ZOOM_MAX
    requires ZOOM_MIN <= val <= ZOOM_MAX
    ensures WheelZoom(WheelZoom(val, rotation), -rotation) == val
  {
  }

  // ---------------------------------------------------------------------------
  // Rendering one state

  /** A state whose doubles the model can decode: all three are finite. */
  predicate Renderable(s: WindowState) {
    IsFinite(s.focusX) && IsFinite(s.focusY) && IsFinite(s.zoom)
  }

  /** `buildBrot` without its UI effects: the window around the state's focus, the
      iteration matrix of its canvas and limit, mapped through the palette. */
  function Render(s: WindowState, palette: seq<int>): Result<seq<int>>
    requires Renderable(s)
  {
    var window :- Mandelbrot.NewWindow(DoubleValue(s.focusX), DoubleValue(s.focusY), DoubleValue(s.zoom));
    var mand :- Mandelbrot.MandelbrotSized(s.pixWidth, s.pixHeight, s.limit, window);
    Mandelbrot.MapMandelbrot(mand, palette)
  }

  /** What rendering a state through the palette of its own limit gives: a zoom that
      is not positive is refused by the window; a negative width, or a negative
      height at a step too small, makes an array of negative size; any other height
      that is not positive leaves no first row to measure; an empty width is refused
      by the image; a negative limit leaves an empty palette to divide by; and
      everything else succeeds with one pixel per canvas cell. */
  lemma RenderOutcome(s: WindowState, shade: (int, int) -> int)
    requires Renderable(s)
    ensures DoubleValue(s.zoom) <= 0.0 ==> Render(s, Mandelbrot.BuildColors(s.limit, shade)) == Failure(IllegalArgument)
    ensures DoubleValue(s.zoom) > 0.0 && s.pixWidth < 0 ==>
      Render(s, Mandelbrot.BuildColors(s.limit, shade)) == Failure(NegativeArraySize)
    ensures DoubleValue(s.zoom) > 0.0 && s.pixWidth >= 0 && s.pixHeight < 0 ==>
      Render(s, Mandelbrot.BuildColors(s.limit, shade)) ==
        if Mandelbrot.OverZoomed(s.pixWidth, ViewOf(s)) then Failure(NegativeArraySize) else Failure(IndexOutOfBounds)
    ensures DoubleValue(s.zoom) > 0.0 && s.pixWidth >= 0 && s.pixHeight == 0 ==>
      Render(s, Mandelbrot.BuildColors(s.limit, shade)) == Failure(IndexOutOfBounds)
    ensures DoubleValue(s.zoom) > 0.0 && s.pixHeight > 0 && s.pixWidth == 0 ==>
      Render(s, Mandelbrot.BuildColors(s.limit, shade)) == Failure(IllegalArgument)
    ensures DoubleValue(s.zoom) > 0.0 && s.pixHeight > 0 && s.pixWidth > 0 && s.limit < 0 ==>
      Render(s, Mandelbrot.BuildColors(s.limit, shade)) == Failure(Arithmetic)
    ensures DoubleValue(s.zoom) > 0.0 && s.pixHeight > 0 && s.pixWidth > 0 && s.limit >= 0 ==>
      Render(s, Mandelbrot.BuildColors(s.limit, shade)).Success?
      && |Render(s, Mandelbrot.BuildColors(s.limit, shade)).value| == s.pixWidth * s.pixHeight
  {
    var zoom := DoubleValue(s.zoom);
    if zoom > 0.0 && s.pixWidth >= 0 && s.pixHeight >= 0 {
      var window := ViewOf(s);
      Mandelbrot.MandelbrotShape(s.pixWidth, s.pixHeight, s.limit, window);
      if s.pixHeight > 0 && s.pixWidth > 0 && s.limit >= 0 {
        Mandelbrot.ComposeRender(s.pixWidth, s.pixHeight, s.limit, window, shade, 0, 0);
      }
    }
  }

  /** The window of a state's decoded focus and zoom. */
  function ViewOf(s: WindowState): Mandelbrot.Window
    requires Renderable(s)
  {
    Mandelbrot.Window(DoubleValue(s.focusX), DoubleValue(s.focusY), DoubleValue(s.zoom))
  }

  /** Two equal states render identically whatever the palette: the step they may
      differ in plays no part in rendering, and NaNs cannot occur in a renderable
      state, so equal states have identical fields. */
  lemma RenderRespectsEquals(a: WindowState, b: WindowState, palette: seq<int>)
    requires Renderable(a) && Renderable(b) && Equals(a, b)
    ensures Render(a, palette) == Render(b, palette)
  {
    EqualsIff(a, b);
    FiniteIsNotNaN(a.focusX);
    FiniteIsNotNaN(a.focusY);
    FiniteIsNotNaN(a.zoom);
  }

  lemma FiniteIsNotNaN(b: bv64)
    requires IsFinite(b)
    ensures !IsNaN(b)
  {
  }

  // ---------------------------------------------------------------------------
  // The scheduler

  /** A request equal to a current state that matches the newest queued state
      matches that state too. */
  lemma StillTracking(previous: WindowState, now: WindowState, last: WindowState)
    requires Equals(previous, last) && EqualsObject(previous, State(now))
    ensures Equals(now, last)
  {
    EqualsObjectOnStates(previous, now);
    EqualsSymmetric(previous, now);
    EqualsTransitive(now, previous, last);
  }

  /** A state just appended is the newest queued one. */
  lemma NewestTracked(s: WindowState, enqueued: seq<WindowState>)
    ensures Equals(s, LastQueued(enqueued + [s]))
  {
    EqualsReflexive(s);
  }

  /** The newest of the queued states, or the initial state while none was queued. */
  function LastQueued(enqueued: seq<WindowState>): WindowState {
    if enqueued == [] then InitialState() else enqueued[|enqueued| - 1]
  }

  /** The main frame's scheduling state. */
  class Mandy {
    /** `Color.getHSBColor` of a count and the palette size, as `buildColors` uses it. */
    const shade: (int, int) -> int

    /** `currentState`: the last state the UI asked for. */
    var currentState: WindowState
    /** `stateq`: requests waiting for the control thread, oldest first. */
    var stateq: seq<WindowState>
    /** The control thread's `pending` deque, between `take` and `clear`. */
    var pending: seq<WindowState>
    /** `colormap`: palettes built so far, by iteration limit. */
    var colormap: map<int, seq<int>>
    /** The value of the zoom spinner (a decimal exponent). */
    var zoomValue: real
    /** The state the spinners' step sizes and the zoom and span labels were last
        derived from; None before the first queued request. */
    var controlsFrom: Option<WindowState>
    /** The pixels of the last image put on the canvas. */
    var canvas: seq<int>
    /** The control thread is still running: an exception other than an interrupt
        escapes its loop and ends it. */
    var controlAlive: bool

    /** Every state ever queued, in order; `stateq` is the part not yet taken. */
    ghost var enqueued: seq<WindowState>
    /** How many of `enqueued` the control thread has taken. */
    ghost var taken: nat
    /** The positions in `enqueued` of the states handed to `buildBrot`, in order. */
    ghost var rendered: seq<nat>

    ghost predicate Valid()
      reads this`pending, this`stateq, this`enqueued, this`taken, this`colormap, this`rendered, this`zoomValue
    {
      && pending == []
      && |stateq| <= QUEUE_CAPACITY
      && taken <= |enqueued| && enqueued[taken..] == stateq
      && (forall i :: 0 <= i < |enqueued| ==> Renderable(enqueued[i]))
      && PalettesMemoised()
      && (forall j :: 0 <= j < |rendered| ==> rendered[j] < taken)
      && (forall i, j :: 0 <= i < j < |rendered| ==> rendered[i] < rendered[j])
      && (taken == 0 <==> rendered == [])
      && (rendered != [] ==> rendered[|rendered| - 1] == taken - 1)
      && ZOOM_MIN <= zoomValue <= ZOOM_MAX
    }

    /** Every stored palette is the one `buildColors` makes for its limit. */
    ghost predicate PalettesMemoised()
      reads this`colormap
    {
      forall k :: k in colormap ==> colormap[k] == Mandelbrot.BuildColors(k, shade)
    }

    /** The current state is the newest queued one, up to `equals` (or the initial
        state while nothing was queued): what the UI shows last is what the control
        thread renders last. */
    ghost predicate Tracks()
      reads this`currentState, this`enqueued
    {
      Equals(currentState, LastQueued(enqueued))
    }

    /** The states handed to `buildBrot`, in the order they were rendered. */
    ghost function RenderedStates(): (r: seq<WindowState>)
      reads this
      requires Valid()
      ensures |r| == |rendered|
    {
      var idx, states := rendered, enqueued;
      seq(|idx|, j requires 0 <= j < |idx| => states[idx[j]])
    }

    /** The frame as built, before its first request: the zoom spinner at 0, the
        initial current state, nothing queued and no palette yet. */
    constructor (shade: (int, int) -> int)
      ensures Valid() && Tracks()
      ensures this.shade == shade
      ensures currentState == InitialState() && stateq == [] && colormap == map[]
      ensures zoomValue == 0.0 && controlsFrom == None && controlAlive
      ensures enqueued == [] && rendered == [] && canvas == []
    {
      this.shade := shade;
      currentState := InitialState();
      stateq := [];
      pending := [];
      colormap := map[];
      zoomValue := 0.0;
      controlsFrom := None;
      canvas := [];
      controlAlive := true;
      enqueued := [];
      taken := 0;
      rendered := [];
    }

    /** `checkState` on the values the controls and the canvas hold: the new state
        always replaces the current one; it is queued, and the controls derived from
        it, only when it differs from the previous state, and a full queue makes
        `offer` fail and the handler throw. */
    method CheckState(w: Int32, h: Int32, lim: Int32, x: bv64, y: bv64, z: bv64, step: bv64)
      returns (outcome: Outcome)
      requires Valid()
      requires IsFinite(x) && IsFinite(y) && IsFinite(z)
      modifies this`currentState, this`stateq, this`enqueued, this`controlsFrom
      ensures Valid()
      ensures currentState == WindowState(w, h, lim, x, y, z, step)
      ensures Equals(old(currentState), currentState) ==>
        outcome == Pass && stateq == old(stateq) && enqueued == old(enqueued) && controlsFrom == old(controlsFrom)
      ensures !Equals(old(currentState), currentState) && |old(stateq)| < QUEUE_CAPACITY ==>
        outcome == Pass && stateq == old(stateq) + [currentState] && enqueued == old(enqueued) + [currentState]
        && controlsFrom == Some(currentState)
      ensures !Equals(old(currentState), currentState) && |old(stateq)| >= QUEUE_CAPACITY ==>
        outcome == Fail(IllegalState) && stateq == old(stateq) && enqueued == old(enqueued)
        && controlsFrom == old(controlsFrom)
      ensures outcome == Pass && old(Tracks()) ==> Tracks()
    {
      var now := WindowState(w, h, lim, x, y, z, step);
      var previous := currentState;
      currentState := now;
      EqualsObjectOnStates(previous, now);
      if EqualsObject(previous, State(now)) {
        // an equal request: only the current state changes
        if old(Tracks()) {
          StillTracking(previous, now, LastQueued(enqueued));
        }
        outcome := Pass;
      } else {
        outcome := Schedule(now);
        if outcome == Pass {
          NewestTracked(now, old(enqueued));
        }
      }
    }

    /** The part of `checkState` after a change: queue the state and derive the
        controls from it, or throw when the queue is full. */
    method Schedule(now: WindowState) returns (outcome: Outcome)
      requires Valid() && Renderable(now)
      modifies this`stateq, this`enqueued, this`controlsFrom
      ensures Valid()
      ensures |old(stateq)| < QUEUE_CAPACITY ==>
        outcome == Pass && stateq == old(stateq) + [now] && enqueued == old(enqueued) + [now]
        && controlsFrom == Some(now)
      ensures |old(stateq)| >= QUEUE_CAPACITY ==>
        outcome == Fail(IllegalState) && stateq == old(stateq) && enqueued == old(enqueued)
        && controlsFrom == old(controlsFrom)
    {
      var accepted := Offer(now);
      if !accepted {
        return Fail(IllegalState);
      }
      controlsFrom := Some(now);
      outcome := Pass;
    }

    /** `stateq.offer(state)`: appended at the tail unless the queue is full. */
    method Offer(state: WindowState) returns (accepted: bool)
      requires Valid() && Renderable(state)
      modifies this`stateq, this`enqueued
      ensures Valid()
      ensures accepted == (|old(stateq)| < QUEUE_CAPACITY)
      ensures accepted ==> stateq == old(stateq) + [state] && enqueued == old(enqueued) + [state]
      ensures !accepted ==> stateq == old(stateq) && enqueued == old(enqueued)
    {
      if |stateq| >= QUEUE_CAPACITY {
        return false;
      }
      assert (enqueued + [state])[taken..] == enqueued[taken..] + [state];
      stateq := stateq + [state];
      enqueued := enqueued + [state];
      accepted := true;
    }

    /** `colormap.computeIfAbsent(limit, buildColors)`: the palette of the limit,
        built and stored only when no palette of that limit is stored yet. */
    method ColorsFor(limit: int) returns (cmap: seq<int>)
      requires PalettesMemoised()
      modifies this`colormap
      ensures PalettesMemoised()
      ensures cmap == Mandelbrot.BuildColors(limit, shade)
      ensures limit in old(colormap) ==> colormap == old(colormap)
      ensures limit !in old(colormap) ==> colormap == old(colormap)[limit := cmap]
    {
      if limit in colormap {
        cmap := colormap[limit];
      } else {
        cmap := Mandelbrot.BuildColors(limit, shade);
        colormap := colormap[limit := cmap];
      }
    }

    /** `buildBrot`: render the state with its limit's memoised palette and show the
        image; an exception ends the control thread. */
    method BuildBrot(state: WindowState)
      requires PalettesMemoised() && Renderable(state)
      modifies this`colormap, this`canvas, this`controlAlive
      ensures PalettesMemoised()
      ensures colormap == old(colormap)[state.limit := Mandelbrot.BuildColors(state.limit, shade)]
      ensures var image := Render(state, Mandelbrot.BuildColors(state.limit, shade));
        if image.Success? then canvas == image.value && controlAlive == old(controlAlive)
        else canvas == old(canvas) && !controlAlive
    {
      var cmap := ColorsFor(state.limit);
      var image := Render(state, cmap);
      if image.Success? {
        canvas := image.value;
      } else {
        controlAlive := false;
      }
    }

    /** One pass of `manageQueue`: wait for a request (modelled as: do nothing while
        the queue is empty or the control thread has ended), drain the rest of the
        queue behind it, and render only the newest state. */
    method ManageQueueStep() returns (recent: Option<WindowState>)
      requires Valid()
      modifies this`stateq, this`pending, this`colormap, this`canvas, this`controlAlive,
               this`taken, this`rendered
      ensures Valid()
      ensures enqueued == old(enqueued)
      ensures !old(controlAlive) || old(stateq) == [] ==>
        recent == None && stateq == old(stateq) && colormap == old(colormap) && canvas == old(canvas)
        && controlAlive == old(controlAlive) && taken == old(taken) && rendered == old(rendered)
      ensures old(controlAlive) && old(stateq) != [] ==>
        recent == Some(old(stateq)[|old(stateq)| - 1])
        && stateq == [] && pending == [] && taken == |enqueued|
        && rendered == old(rendered) + [|enqueued| - 1]
      ensures recent.Some? ==>
        var limit := recent.value.limit;
        var image := Render(recent.value, Mandelbrot.BuildColors(limit, shade));
        colormap == old(colormap)[limit := Mandelbrot.BuildColors(limit, shade)]
        && (image.Success? ==> canvas == image.value && controlAlive)
        && (image.Failure? ==> canvas == old(canvas) && !controlAlive)
      ensures recent.Some? && old(Tracks()) ==> Equals(currentState, recent.value)
    {
      if !controlAlive || stateq == [] {
        return None;
      }
      var last := TakeLatest();
      recent := Some(last);
      BuildBrot(last);
    }

    /** The queue half of a pass: every queued state is taken, and the newest of them
        is the one recorded as rendered. */
    method TakeLatest() returns (last: WindowState)
      requires Valid() && stateq != []
      modifies this`stateq, this`pending, this`taken, this`rendered
      ensures Valid()
      ensures last == old(stateq)[|old(stateq)| - 1] && last == LastQueued(enqueued)
      ensures Renderable(last)
      ensures stateq == [] && pending == [] && taken == |enqueued|
      ensures rendered == old(rendered) + [|enqueued| - 1]
    {
      TakeAndDrain();
      last := pending[|pending| - 1];
      pending := [];
      rendered := rendered + [taken - 1];
    }

    /** `pending.add(stateq.take())` then `stateq.drainTo(pending)`: every queued
        state moves, in order, to `pending`. */
    method TakeAndDrain()
      requires pending == [] && taken <= |enqueued| && enqueued[taken..] == stateq && stateq != []
      modifies this`stateq, this`pending, this`taken
      ensures pending == old(stateq) && stateq == [] && taken == |enqueued|
      ensures pending[|pending| - 1] == enqueued[|enqueued| - 1]
    {
      pending := pending + [stateq[0]];
      stateq := stateq[1..];
      taken := taken + 1;
      while stateq != []
        invariant taken <= |enqueued|
        invariant pending + stateq == old(stateq)
        invariant enqueued[taken..] == stateq
        decreases |stateq|
      {
        pending := pending + [stateq[0]];
        stateq := stateq[1..];
        taken := taken + 1;
      }
    }

    /** `mouseWheelMoved`: the zoom spinner moves as `WheelZoom` says; the
        `checkState` this triggers is a separate call. */
    method MouseWheelMoved(rotation: Int32)
      requires Valid()
      modifies this`zoomValue
      ensures Valid()
      ensures zoomValue == WheelZoom(old(zoomValue), rotation)
    {
      zoomValue := WheelZoom(zoomValue, rotation);
    }
  }

  /** Three requests for distinct states, made before the control thread wakes,
      reach the renderer as one: it renders the third and skips the first two;
      asking for the third state again queues nothing, and the next pass is idle. */
  method CoalescingScenario(shade: (int, int) -> int) returns (m: Mandy)
    ensures m.Valid() && m.stateq == [] && |m.enqueued| == 3
    ensures m.rendered == [2] && m.RenderedStates() == [Request(300)]
  {
    m := new Mandy(shade);
    RequestBurst(m);
    assert m.enqueued == [Request(100), Request(200), Request(300)] && m.taken == 0;
    var r := m.ManageQueueStep();
    assert r == Some(Request(300));
    assert m.taken == 3 && m.rendered == [2] && m.stateq == [];
    var again := m.CheckState(10, 10, 300, 0, 0, ONE, 0);
    assert m.stateq == [] && |m.enqueued| == 3;
    var idle := m.ManageQueueStep();
    assert idle == None;
  }

  /** The bit pattern of the double 1.0. */
  const ONE: bv64 := 0x3FF0_0000_0000_0000

  /** A 10 x 10 view of the origin at zoom 1 with the given limit. */
  function Request(limit: Int32): WindowState {
    WindowState(10, 10, limit, 0, 0, ONE, 0)
  }

  /** Three distinct requests in a row, from the initial frame, are all queued. */
  method RequestBurst(m: Mandy)
    requires m.Valid() && m.stateq == [] && m.enqueued == [] && m.currentState == InitialState()
    requires m.controlAlive
    modifies m
    ensures m.Valid() && m.controlAlive && m.taken == 0
    ensures m.stateq == m.enqueued == [Request(100), Request(200), Request(300)]
    ensures m.currentState == Request(300)
  {
    var a := m.CheckState(10, 10, 100, 0, 0, ONE, 0);
    var b := m.CheckState(10, 10, 200, 0, 0, ONE, 0);
    var c := m.CheckState(10, 10, 300, 0, 0, ONE, 0);
  }
}
