/** The scroll pipeline: the scroll listener asks for at most one animation frame at a
    time (the `ticking` flag), and the frame callback updates the navbar's "scrolled"
    state, records the offset and clears the flag. The progress bar and parallax
    updates that the same callback performs are not part of this model. */
module ScrollEffects {

  /** The navbar is "scrolled" past this many pixels. */
  const ScrolledThreshold: int := 100

  /** The pipeline's state. `pending` counts the frame callbacks requested from the
      browser and not yet run; `updates` counts the callbacks that ran to completion. */
  datatype Gate = Gate(ticking: bool, pending: nat, scrolled: bool, lastScroll: int, updates: nat)

  /** Script load: nothing requested, navbar not scrolled, offset 0. */
  const Initial: Gate := Gate(false, 0, false, 0, 0)

  /** `ticking` is set exactly while one callback is requested and not yet run. */
  ghost predicate Coherent(g: Gate) {
    g.pending <= 1 && (g.ticking <==> g.pending == 1)
  }

  /** The scroll listener: request a frame and set `ticking`, unless `ticking` is set. */
  function Schedule(g: Gate): (h: Gate)
    ensures Coherent(g) ==> Coherent(h) && h.pending == 1
    ensures h.ticking && h.scrolled == g.scrolled && h.lastScroll == g.lastScroll && h.updates == g.updates
    ensures g.ticking ==> h == g
  {
    if !g.ticking then g.(ticking := true, pending := g.pending + 1) else g
  }

  /** updateOnScroll, with the navbar looked up defensively: the navbar is "scrolled"
      exactly when the offset exceeds 100, the offset is recorded and `ticking` cleared. */
  function Update(g: Gate, offset: int, hasNavbar: bool): (h: Gate)
    requires g.pending > 0
    ensures hasNavbar ==> (h.scrolled <==> offset > ScrolledThreshold)
    ensures !hasNavbar ==> h.scrolled == g.scrolled
    ensures !h.ticking && h.lastScroll == offset
    ensures h.pending == g.pending - 1 && h.updates == g.updates + 1
    ensures Coherent(g) ==> Coherent(h)
  {
    Gate(false, g.pending - 1, if hasNavbar then offset > ScrolledThreshold else g.scrolled,
         offset, g.updates + 1)
  }

  /** updateOnScroll as the script has it: without a navbar, `navbar.classList` throws
      after the progress bar is updated and before `ticking` is cleared. The callback
      is used up, and `ticking` stays as it was. */
  function UpdateAsWritten(g: Gate, offset: int, hasNavbar: bool): (h: Gate)
    requires g.pending > 0
    ensures hasNavbar ==> h == Update(g, offset, hasNavbar)
    ensures !hasNavbar ==> h.ticking == g.ticking && h.pending == g.pending - 1 && h.updates == g.updates
  {
    if hasNavbar then Update(g, offset, hasNavbar)
    else g.(pending := g.pending - 1)
  }

  /** A browser frame runs every callback requested before it, each one at the frame's
      scroll offset. */
  function RunCallbacks(g: Gate, offset: int, hasNavbar: bool): (h: Gate)
    ensures h.pending == 0
    ensures h.updates == g.updates + g.pending
    ensures g.pending > 0 ==> !h.ticking && h.lastScroll == offset
    ensures g.pending > 0 && hasNavbar ==> (h.scrolled <==> offset > ScrolledThreshold)
    ensures g.pending == 0 ==> h == g
    decreases g.pending
  {
    if g.pending == 0 then g else RunCallbacks(Update(g, offset, hasNavbar), offset, hasNavbar)
  }

  datatype Event = Scroll | Frame(offset: int)

  function Step(g: Gate, hasNavbar: bool, e: Event): Gate {
    match e
    case Scroll => Schedule(g)
    case Frame(offset) => RunCallbacks(g, offset, hasNavbar)
  }

  function Run(g: Gate, hasNavbar: bool, events: seq<Event>): Gate
    decreases |events|
  {
    if events == [] then g else Run(Step(g, hasNavbar, events[0]), hasNavbar, events[1..])
  }

  function Frames(events: seq<Event>): nat
    decreases |events|
  {
    if events == [] then 0 else (if events[0].Frame? then 1 else 0) + Frames(events[1..])
  }

  /** Any run of events keeps `ticking` in step with the requested callbacks. */
  lemma {:induction false} RunStaysCoherent(g: Gate, hasNavbar: bool, events: seq<Event>)
    requires Coherent(g)
    ensures Coherent(Run(g, hasNavbar, events))
    decreases |events|
  {
    if events != [] {
      RunStaysCoherent(Step(g, hasNavbar, events[0]), hasNavbar, events[1..]);
    }
  }

  /** However many scroll events arrive between two frames, exactly one callback is
      requested, and nothing else changes. */
  lemma {:induction false} BurstRequestsOneFrame(g: Gate, hasNavbar: bool, k: nat)
    requires Coherent(g) && k > 0
    ensures Run(g, hasNavbar, seq(k, _ => Scroll)) == g.(ticking := true, pending := 1)
    decreases k
  {
    var scrolls := seq(k, _ => Scroll);
    assert scrolls[0] == Scroll;
    if k > 1 {
      assert scrolls[1..] == seq(k - 1, _ => Scroll);
      BurstRequestsOneFrame(Schedule(g), hasNavbar, k - 1);
    } else {
      assert scrolls[1..] == [];
    }
  }

  /** The update runs at most once per frame: over any run of events, no more updates
      complete than frames were painted. */
  lemma {:induction false} AtMostOneUpdatePerFrame(g: Gate, hasNavbar: bool, events: seq<Event>)
    requires Coherent(g)
    ensures Run(g, hasNavbar, events).updates <= g.updates + Frames(events)
    decreases |events|
  {
    if events != [] {
      var h := Step(g, hasNavbar, events[0]);
      assert h.updates <= g.updates + (if events[0].Frame? then 1 else 0);
      AtMostOneUpdatePerFrame(h, hasNavbar, events[1..]);
    }
  }

  /** A burst of scroll events followed by a frame runs the update exactly once, and
      afterwards the navbar state reflects the frame's offset. */
  lemma BurstThenFrame(g: Gate, k: nat, offset: int)
    requires Coherent(g) && k > 0
    ensures var h := Run(g, true, seq(k, _ => Scroll) + [Frame(offset)]);
      && h.updates == g.updates + 1
      && !h.ticking && h.pending == 0
      && (h.scrolled <==> offset > ScrolledThreshold)
  {
    RunAppend(g, true, seq(k, _ => Scroll), [Frame(offset)]);
    BurstRequestsOneFrame(g, true, k);
  }

  lemma {:induction false} RunAppend(g: Gate, hasNavbar: bool, a: seq<Event>, b: seq<Event>)
    ensures Run(g, hasNavbar, a + b) == Run(Run(g, hasNavbar, a), hasNavbar, b)
    decreases |a|
  {
    if a == [] {
      assert a + b == b;
    } else {
      assert (a + b)[0] == a[0];
      assert (a + b)[1..] == a[1..] + b;
      RunAppend(Step(g, hasNavbar, a[0]), hasNavbar, a[1..], b);
    }
  }

  /** A state with `ticking` set and no callback requested never changes again: no
      scroll requests a frame and no frame runs an update. */
  lemma {:induction false} StuckStaysStuck(g: Gate, hasNavbar: bool, events: seq<Event>)
    requires g.ticking && g.pending == 0
    ensures Run(g, hasNavbar, events) == g
    decreases |events|
  {
    if events != [] {
      StuckStaysStuck(Step(g, hasNavbar, events[0]), hasNavbar, events[1..]);
    }
  }

  /** As written, on a page without a navbar the first frame callback throws before
      clearing `ticking`: from then on no scroll requests a frame and the update never
      runs again. */
  lemma NavbarlessPageFreezesAsWritten(offset: int, events: seq<Event>)
    ensures var h := UpdateAsWritten(Schedule(Initial), offset, false);
      && h.ticking && h.pending == 0
      && Run(h, false, events) == h
      && Run(h, false, events).updates == 0
  {
    var h := UpdateAsWritten(Schedule(Initial), offset, false);
    StuckStaysStuck(h, false, events);
  }

  /** With the navbar guarded, a frame always clears `ticking`, so the next scroll
      requests a frame again, navbar or not. */
  lemma GuardedUpdateKeepsScheduling(g: Gate, hasNavbar: bool, offset: int)
    requires Coherent(g) && !g.ticking
    ensures var h := Run(g, hasNavbar, [Scroll, Frame(offset), Scroll]);
      h.pending == 1 && h.ticking && h.updates == g.updates + 1
  {
    var s1 := Step(g, hasNavbar, Scroll);
    var s2 := Step(s1, hasNavbar, Frame(offset));
    var s3 := Step(s2, hasNavbar, Scroll);
    var es := [Scroll, Frame(offset), Scroll];
    assert es[1..] == [Frame(offset), Scroll];
    assert es[1..][1..] == [Scroll];
    assert Run(s2, hasNavbar, [Scroll]) == Run(s3, hasNavbar, []);
    assert Run(s1, hasNavbar, es[1..]) == Run(s2, hasNavbar, [Scroll]);
    assert Run(g, hasNavbar, es) == s3;
  }

  /** The script's scroll state: the `ticking` and `lastScroll` variables and the
      navbar's "scrolled" class. */
  class ScrollPipeline {
    const hasNavbar: bool
    var ticking: bool
    var lastScroll: int
    var scrolled: bool
    /** Frame callbacks requested and not yet run, and callbacks completed. */
    ghost var pending: nat
    ghost var updates: nat

    ghost function State(): Gate
      reads this
    {
      Gate(ticking, pending, scrolled, lastScroll, updates)
    }

    constructor (hasNavbar: bool)
      ensures this.hasNavbar == hasNavbar && State() == Initial
    {
      this.hasNavbar := hasNavbar;
      ticking, lastScroll, scrolled := false, 0, false;
      pending, updates := 0, 0;
    }

    /** The window's scroll listener. */
    method HandleScroll()
      modifies this
      ensures State() == Schedule(old(State()))
      ensures Coherent(old(State())) ==> Coherent(State())
    {
      if !ticking {
        pending := pending + 1;
        ticking := true;
      }
    }

    /** The frame callback; the browser runs it only after it was requested. */
    method UpdateOnScroll(currentScroll: int)
      requires pending > 0
      modifies this
      ensures State() == Update(old(State()), currentScroll, hasNavbar)
      ensures hasNavbar ==> (scrolled <==> currentScroll > ScrolledThreshold)
      ensures !ticking
    {
      if hasNavbar {
        scrolled := currentScroll > ScrolledThreshold;
      }
      lastScroll := currentScroll;
      ticking := false;
      pending, updates := pending - 1, updates + 1;
    }
  }
}
