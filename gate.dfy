/** The state stream of a code annotation (`watchAnnotation`): the marker's
    offset, derived from two geometry sources, gated by the marker's focus.

    Every focus value replaces the live derivation by a new one (switch to
    latest). The new derivation reads the current geometry at once (both
    geometry sources report their current value when subscribed to) and is
    limited by `take(+!active || Infinity)`: one value after a focus-out, an
    unbounded number after a focus-in. */
module Gate {
  import opened Geometry

  /** A state of the annotation: open (the marker holds focus) or not, and
      where its tooltip goes. */
  datatype Annotation = Annotation(active: bool, offset: Point)

  /** The number of values the live derivation may still let through. */
  datatype Budget = Finite(n: nat) | Unbounded

  /** The argument of `take`: `+!active` is 1 for a closed annotation and 0 for
      an open one, and 0 is falsy, so `|| Infinity` picks an unbounded take. */
  function TakeCount(active: bool): (b: Budget)
    ensures b == Unbounded <==> active
    ensures !active ==> b == Finite(1)
  {
    var n := if active then 0 else 1;
    if n == 0 then Unbounded else Finite(n)
  }

  /** A derivation that may still emit. */
  predicate Live(b: Budget) {
    b.Unbounded? || b.n > 0
  }

  /** The budget left after one value went through `take`. */
  function Consume(b: Budget): Budget
    requires Live(b)
  {
    if b.Unbounded? then Unbounded else Finite(b.n - 1)
  }

  /** The gate: the focus value that started the live derivation, the budget
      left to it, and the latest value of each geometry source (the marker's
      element offset and the code block's content offset). */
  datatype GateState = GateState(active: bool, budget: Budget, anchor: Point, scroll: Point)

  /** What the three upstream sources report. */
  datatype GateEvent =
    | FocusChanged(active: bool)
    | AnchorMoved(to: Point)
    | ContainerScrolled(to: Point)

  /** A new gate state with the states emitted on the way to it. */
  datatype Emission = Emission(next: GateState, out: seq<Annotation>)

  /** Subscribed, but no focus value seen yet: there is no live derivation. */
  function Idle(anchor: Point, scroll: Point): GateState {
    GateState(false, Finite(0), anchor, scroll)
  }

  /** One combined geometry value reaching `take`: it is passed on, tagged
      with the derivation's focus value, when the budget allows it. */
  function Derive(g: GateState): (r: Emission)
    ensures r.next.active == g.active && r.next.anchor == g.anchor && r.next.scroll == g.scroll
    ensures |r.out| == (if Live(g.budget) then 1 else 0)
    ensures forall a :: a in r.out ==> a == Annotation(g.active, Offset(g.anchor, g.scroll))
    ensures Live(g.budget) && g.budget.Finite? ==> r.next.budget.Finite? && r.next.budget.n + 1 == g.budget.n
    ensures g.budget.Unbounded? ==> r.next.budget.Unbounded?
    ensures !Live(g.budget) ==> r.next == g
  {
    if Live(g.budget) then
      Emission(g.(budget := Consume(g.budget)), [Annotation(g.active, Offset(g.anchor, g.scroll))])
    else
      Emission(g, [])
  }

  /** The gate's reaction to one upstream value. */
  function Step(g: GateState, e: GateEvent): (r: Emission)
    ensures |r.out| <= 1
    ensures forall a :: a in r.out ==> a == Annotation(r.next.active, Offset(r.next.anchor, r.next.scroll))
    ensures e.FocusChanged? ==> r.next.active == e.active && |r.out| == 1
    ensures !e.FocusChanged? ==> r.next.active == g.active && (|r.out| == 1 <==> Live(g.budget))
    ensures r.next.anchor == if e.AnchorMoved? then e.to else g.anchor
    ensures r.next.scroll == if e.ContainerScrolled? then e.to else g.scroll
  {
    match e
    case FocusChanged(active) =>
      // switchMap: the previous derivation is dropped and a fresh one starts
      Derive(g.(active := active, budget := TakeCount(active)))
    case AnchorMoved(p) => Derive(g.(anchor := p))
    case ContainerScrolled(p) => Derive(g.(scroll := p))
  }

  /** The gate's reaction to a sequence of upstream values, in order. */
  function Run(g: GateState, evs: seq<GateEvent>): (r: Emission)
    ensures |r.out| <= |evs|
    decreases |evs|
  {
    if evs == [] then Emission(g, [])
    else
      var before := Run(g, evs[..|evs| - 1]);
      var last := Step(before.next, evs[|evs| - 1]);
      Emission(last.next, before.out + last.out)
  }

  /** Between events, an open annotation is tracked without limit and a
      closed one has no live derivation left: its one value was taken at once. */
  predicate GateInv(g: GateState) {
    g.budget == if g.active then Unbounded else Finite(0)
  }

  // Reference definitions: the latest value of each upstream source.

  function LastFocus(start: bool, evs: seq<GateEvent>): bool
    decreases |evs|
  {
    if evs == [] then start
    else if evs[|evs| - 1].FocusChanged? then evs[|evs| - 1].active
    else LastFocus(start, evs[..|evs| - 1])
  }

  function AnchorAfter(start: Point, evs: seq<GateEvent>): Point
    decreases |evs|
  {
    if evs == [] then start
    else if evs[|evs| - 1].AnchorMoved? then evs[|evs| - 1].to
    else AnchorAfter(start, evs[..|evs| - 1])
  }

  function ScrollAfter(start: Point, evs: seq<GateEvent>): Point
    decreases |evs|
  {
    if evs == [] then start
    else if evs[|evs| - 1].ContainerScrolled? then evs[|evs| - 1].to
    else ScrollAfter(start, evs[..|evs| - 1])
  }

  /** The offset the geometry sources describe after `evs`. */
  function CurrentOffset(g: GateState, evs: seq<GateEvent>): Point {
    Offset(AnchorAfter(g.anchor, evs), ScrollAfter(g.scroll, evs))
  }

  predicate NoFocusChange(evs: seq<GateEvent>) {
    forall i :: 0 <= i < |evs| ==> !evs[i].FocusChanged?
  }

  lemma StepKeepsInv(g: GateState, e: GateEvent)
    requires GateInv(g)
    ensures GateInv(Step(g, e).next)
  {
  }

  lemma {:induction false} RunKeepsInv(g: GateState, evs: seq<GateEvent>)
    requires GateInv(g)
    ensures GateInv(Run(g, evs).next)
    decreases |evs|
  {
    if evs != [] {
      RunKeepsInv(g, evs[..|evs| - 1]);
      StepKeepsInv(Run(g, evs[..|evs| - 1]).next, evs[|evs| - 1]);
    }
  }

  /** The gate remembers the latest value of every source. */
  lemma {:induction false} RunTracksSources(g: GateState, evs: seq<GateEvent>)
    ensures Run(g, evs).next.active == LastFocus(g.active, evs)
    ensures Run(g, evs).next.anchor == AnchorAfter(g.anchor, evs)
    ensures Run(g, evs).next.scroll == ScrollAfter(g.scroll, evs)
    decreases |evs|
  {
    if evs != [] {
      RunTracksSources(g, evs[..|evs| - 1]);
    }
  }

  /** Running two traces one after the other is running their concatenation. */
  lemma {:induction false} RunAppend(g: GateState, a: seq<GateEvent>, b: seq<GateEvent>)
    ensures Run(g, a + b) == Emission(Run(Run(g, a).next, b).next, Run(g, a).out + Run(Run(g, a).next, b).out)
    decreases |b|
  {
    if b == [] {
      assert a + b == a;
    } else {
      var init := b[..|b| - 1];
      RunAppend(g, a, init);
      assert (a + b)[..|a + b| - 1] == a + init;
      assert (a + b)[|a + b| - 1] == b[|b| - 1];
    }
  }

  /** Whatever happened before, a state emitted in response to an event
      carries the focus value of the most recent focus change, never that of
      an earlier one. */
  lemma LatestFocusWins(g: GateState, history: seq<GateEvent>, e: GateEvent)
    ensures forall a :: a in Step(Run(g, history).next, e).out ==> a.active == LastFocus(g.active, history + [e])
  {
    RunTracksSources(g, history);
    assert (history + [e])[..|history|] == history;
  }

  /** Every emitted offset is the latest anchor offset minus the latest
      container scroll offset. */
  lemma EmittedOffsetIsCurrent(g: GateState, history: seq<GateEvent>, e: GateEvent)
    ensures forall a :: a in Step(Run(g, history).next, e).out ==> a.offset == CurrentOffset(g, history + [e])
  {
    RunTracksSources(g, history + [e]);
    assert (history + [e])[..|history|] == history;
  }

  /** A closed annotation stays silent until the next focus change. */
  lemma {:induction false} QuietWhileInactive(g: GateState, evs: seq<GateEvent>)
    requires GateInv(g) && !g.active
    requires NoFocusChange(evs)
    ensures Run(g, evs).out == []
    ensures GateInv(Run(g, evs).next) && !Run(g, evs).next.active
    decreases |evs|
  {
    if evs != [] {
      QuietWhileInactive(g, evs[..|evs| - 1]);
    }
  }

  /** A focus-out emits exactly one closed state, the snapshot of the
      geometry at that moment, and then nothing until the next focus change. */
  lemma FocusLossEmitsOnce(g: GateState, evs: seq<GateEvent>)
    requires NoFocusChange(evs)
    ensures Run(g, [FocusChanged(false)] + evs).out == [Annotation(false, Offset(g.anchor, g.scroll))]
  {
    RunAppend(g, [FocusChanged(false)], evs);
    assert [FocusChanged(false)][..0] == [];
    QuietWhileInactive(Run(g, [FocusChanged(false)]).next, evs);
  }

  /** An open annotation emits once per geometry change, from either source,
      each time with the offset after that change. */
  lemma {:induction false} TrackingWhileActive(g: GateState, evs: seq<GateEvent>)
    requires GateInv(g) && g.active
    requires NoFocusChange(evs)
    ensures |Run(g, evs).out| == |evs|
    ensures forall i :: 0 <= i < |evs| ==> Run(g, evs).out[i] == Annotation(true, CurrentOffset(g, evs[..i + 1]))
    ensures GateInv(Run(g, evs).next) && Run(g, evs).next.active
    decreases |evs|
  {
    if evs != [] {
      var n := |evs|;
      var init := evs[..n - 1];
      TrackingWhileActive(g, init);
      RunTracksSources(g, evs);
      assert evs[..n] == evs;
      forall i | 0 <= i < n - 1
        ensures Run(g, evs).out[i] == Annotation(true, CurrentOffset(g, evs[..i + 1]))
      {
        assert evs[..i + 1] == init[..i + 1];
      }
    }
  }

  /** A focus-in emits the current state at once and then one state per
      geometry change until the next focus change, without limit. */
  lemma FocusGainTracks(g: GateState, evs: seq<GateEvent>)
    requires NoFocusChange(evs)
    ensures |Run(g, [FocusChanged(true)] + evs).out| == |evs| + 1
    ensures Run(g, [FocusChanged(true)] + evs).out[0] == Annotation(true, Offset(g.anchor, g.scroll))
    ensures forall i :: 0 < i <= |evs| ==> Run(g, [FocusChanged(true)] + evs).out[i] == Annotation(true, CurrentOffset(g, evs[..i]))
  {
    RunAppend(g, [FocusChanged(true)], evs);
    assert [FocusChanged(true)][..0] == [];
    var mid := Run(g, [FocusChanged(true)]).next;
    TrackingWhileActive(mid, evs);
  }
}
