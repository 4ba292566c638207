/** The mounted code annotation (`mountAnnotation`): every state the gate emits
    is pushed to a sink that writes the tooltip position into two custom style
    properties of the marker, arms a one-shot outside-click detector while the
    annotation is open, and is republished with a reference to the marker.
    Teardown removes both style properties. */
module Mount {
  import opened Geometry
  import Gate

  /** The marker element, by identity. */
  datatype Element = Element(id: nat)

  /** The inline style of the marker: property name to pixel value. */
  type Style = map<string, int>

  const TooltipX: string := "--md-tooltip-x"
  const TooltipY: string := "--md-tooltip-y"

  /** Both tooltip properties are present and hold `p`. */
  predicate Shows(style: Style, p: Point) {
    TooltipX in style && style[TooltipX] == p.x && TooltipY in style && style[TooltipY] == p.y
  }

  /** Neither tooltip property is present. */
  predicate Cleared(style: Style) {
    TooltipX !in style && TooltipY !in style
  }

  /** The two tooltip properties are the same in both styles. */
  predicate SameSlots(a: Style, b: Style) {
    (TooltipX in a <==> TooltipX in b) && (TooltipX in a ==> a[TooltipX] == b[TooltipX]) &&
    (TooltipY in a <==> TooltipY in b) && (TooltipY in a ==> a[TooltipY] == b[TooltipY])
  }

  /** Every property other than the two tooltip properties is as it was. */
  ghost predicate Untouched(before: Style, after: Style) {
    forall k :: k != TooltipX && k != TooltipY ==>
      (k in after <==> k in before) && (k in before ==> after[k] == before[k])
  }

  /** The sink's `next`: set both tooltip properties to the state's offset. */
  function SinkNext(style: Style, a: Gate.Annotation): (r: Style)
    ensures Shows(r, a.offset)
    ensures Untouched(style, r)
  {
    style[TooltipX := a.offset.x][TooltipY := a.offset.y]
  }

  /** The sink's `complete`: remove both tooltip properties, present or not. */
  function SinkComplete(style: Style): (r: Style)
    ensures Cleared(r)
    ensures Untouched(style, r)
  {
    (style - {TooltipX}) - {TooltipY}
  }

  /** Removing properties that are already absent changes nothing. */
  lemma SinkCompleteIdempotent(style: Style)
    ensures SinkComplete(SinkComplete(style)) == SinkComplete(style)
  {
  }

  /** A record of the component's public stream. */
  datatype Component = Component(ref: Element, active: bool, offset: Point)

  /** The state a record republishes. */
  function Strip(c: Component): Gate.Annotation {
    Gate.Annotation(c.active, c.offset)
  }

  /** `{ ref: el, ...state }`: the state, with the marker added. */
  function Publish(el: Element, a: Gate.Annotation): (c: Component)
    ensures c.ref == el && Strip(c) == a
  {
    Component(el, a.active, a.offset)
  }

  /** The mounted component: the gate feeding it, the marker, the marker's
      style, whether the outside-click detector is armed, and whether the
      component has been torn down. */
  datatype MountState = MountState(gate: Gate.GateState, el: Element, style: Style, armed: bool, closed: bool)

  /** The events the component reacts to. `Upstream` carries what the focus
      and geometry sources report. */
  datatype Event =
    | Upstream(e: Gate.GateEvent)
    | PointerDown
    | Teardown

  /** A new component state, the records published on the way to it, and
      whether the default action of the pointer-down was prevented. */
  datatype Reaction = Reaction(next: MountState, out: seq<Component>, prevented: bool)

  /** The component right after subscription: no focus value yet, nothing
      armed, the marker's style as it was. */
  function Initial(el: Element, style: Style, anchor: Point, scroll: Point): (m: MountState)
    ensures MountInv(m)
    ensures !m.gate.active && !Gate.Live(m.gate.budget) && !m.armed && !m.closed
    ensures m.el == el && m.style == style && m.gate.anchor == anchor && m.gate.scroll == scroll
  {
    MountState(Gate.Idle(anchor, scroll), el, style, false, false)
  }

  /** States pushed to the sink, in order: each one sets the tooltip
      properties, arms the detector exactly when it is open, and is
      republished with the marker. */
  function Push(m: MountState, anns: seq<Gate.Annotation>): (r: Reaction)
    ensures |r.out| == |anns| && !r.prevented
    ensures r.next.gate == m.gate && r.next.el == m.el && r.next.closed == m.closed
    decreases |anns|
  {
    if anns == [] then Reaction(m, [], false)
    else
      var before := Push(m, anns[..|anns| - 1]);
      var a := anns[|anns| - 1];
      Reaction(before.next.(style := SinkNext(before.next.style, a), armed := a.active),
               before.out + [Publish(m.el, a)], false)
  }

  /** An upstream value reaching the component: after teardown it reaches
      nothing; before, the gate reacts and what it emits is pushed. */
  function Deliver(m: MountState, e: Gate.GateEvent): (r: Reaction)
    ensures |r.out| <= 1 && !r.prevented
    ensures r.next.el == m.el && r.next.closed == m.closed
    ensures m.closed ==> r.out == [] && r.next == m
    ensures !m.closed ==> r.next.gate == Gate.Step(m.gate, e).next
    ensures forall c :: c in r.out ==> c.ref == m.el && Strip(c) == Gate.Annotation(r.next.gate.active, Offset(r.next.gate.anchor, r.next.gate.scroll))
  {
    if m.closed then Reaction(m, [], false)
    else
      var g := Gate.Step(m.gate, e);
      Push(m.(gate := g.next), g.out)
  }

  /** The component's reaction to one event. A pointer-down reaches the
      detector only while it is armed; the listener is then removed, the
      default action prevented, and the marker blurred, which the focus
      source reports as a focus-out. */
  function Step(m: MountState, e: Event): (r: Reaction)
    ensures |r.out| <= 1 && r.next.el == m.el
    ensures r.prevented <==> e.PointerDown? && m.armed
    ensures m.closed ==> r.out == [] && r.next.closed
    ensures forall c :: c in r.out ==> c.ref == m.el
    ensures e.PointerDown? && m.armed ==> !r.next.armed && forall c :: c in r.out ==> !c.active
    ensures e.Teardown? ==> r.out == [] && r.next.closed && Cleared(r.next.style)
  {
    match e
    case Upstream(ge) => Deliver(m, ge)
    case PointerDown =>
      if !m.armed then Reaction(m, [], false)
      else
        var blurred := Deliver(m.(armed := false), Gate.FocusChanged(false));
        Reaction(blurred.next, blurred.out, true)
    case Teardown =>
      Reaction(m.(style := SinkComplete(m.style), closed := true), [], false)
  }

  /** A trace: the final state, everything published, and how many
      pointer-downs had their default action prevented. */
  datatype Trace = Trace(next: MountState, out: seq<Component>, prevented: nat)

  function Run(m: MountState, evs: seq<Event>): (r: Trace)
    ensures |r.out| <= |evs| && r.prevented <= |evs|
    ensures r.next.el == m.el
    ensures m.closed ==> r.next.closed
    decreases |evs|
  {
    if evs == [] then Trace(m, [], 0)
    else
      var before := Run(m, evs[..|evs| - 1]);
      var last := Step(before.next, evs[|evs| - 1]);
      Trace(last.next, before.out + last.out, before.prevented + if last.prevented then 1 else 0)
  }

  /** Upstream values as component events. */
  function Lift(gevs: seq<Gate.GateEvent>): seq<Event> {
    seq(|gevs|, i requires 0 <= i < |gevs| => Upstream(gevs[i]))
  }

  /** What holds between events: the gate's invariant; the detector is armed
      only while the annotation is open, and exactly then until teardown (it
      may outlive teardown, but never outlives the open state); a torn-down
      marker carries no tooltip properties; and an open, mounted annotation
      shows the current offset. */
  predicate MountInv(m: MountState) {
    && Gate.GateInv(m.gate)
    && (m.armed ==> m.gate.active)
    && (!m.closed ==> m.armed == m.gate.active)
    && (m.closed ==> Cleared(m.style))
    && (!m.closed && m.gate.active ==> Shows(m.style, Offset(m.gate.anchor, m.gate.scroll)))
  }

  /** Pushing publishes one record per state, in order, with the marker as
      `ref`; the tooltip properties and the detector follow the last state,
      and nothing else changes. */
  lemma {:induction false} PushPublishesInOrder(m: MountState, anns: seq<Gate.Annotation>)
    ensures |Push(m, anns).out| == |anns|
    ensures forall i :: 0 <= i < |anns| ==> Push(m, anns).out[i] == Publish(m.el, anns[i])
    ensures !Push(m, anns).prevented
    ensures Push(m, anns).next.gate == m.gate && Push(m, anns).next.el == m.el
    ensures Push(m, anns).next.closed == m.closed
    ensures Untouched(m.style, Push(m, anns).next.style)
    ensures anns == [] ==> Push(m, anns).next == m
    ensures anns != [] ==> Shows(Push(m, anns).next.style, anns[|anns| - 1].offset)
    ensures anns != [] ==> Push(m, anns).next.armed == anns[|anns| - 1].active
    decreases |anns|
  {
    if anns != [] {
      PushPublishesInOrder(m, anns[..|anns| - 1]);
    }
  }

  lemma StepKeepsInv(m: MountState, e: Event)
    requires MountInv(m)
    ensures MountInv(Step(m, e).next)
  {
    match e
    case Upstream(ge) =>
      var g := Gate.Step(m.gate, ge);
      Gate.StepKeepsInv(m.gate, ge);
      PushPublishesInOrder(m.(gate := g.next), g.out);
    case PointerDown =>
      if m.armed {
        var g := Gate.Step(m.gate, Gate.FocusChanged(false));
        PushPublishesInOrder(m.(armed := false, gate := g.next), g.out);
      }
    case Teardown =>
  }

  lemma {:induction false} RunKeepsInv(m: MountState, evs: seq<Event>)
    requires MountInv(m)
    ensures MountInv(Run(m, evs).next)
    decreases |evs|
  {
    if evs != [] {
      RunKeepsInv(m, evs[..|evs| - 1]);
      StepKeepsInv(Run(m, evs[..|evs| - 1]).next, evs[|evs| - 1]);
    }
  }

  /** From subscription on, whatever happens, an open and mounted annotation
      shows the offset of the current geometry. */
  lemma OpenAnnotationShowsCurrentOffset(el: Element, style: Style, anchor: Point, scroll: Point, evs: seq<Event>)
    ensures var r := Run(Initial(el, style, anchor, scroll), evs).next;
      !r.closed && r.gate.active ==> Shows(r.style, Offset(r.gate.anchor, r.gate.scroll))
  {
    RunKeepsInv(Initial(el, style, anchor, scroll), evs);
  }

  /** One step: the tooltip properties hold the offset of the last record
      published, or are as they were when nothing was published, until
      teardown; no other property of the marker changes; teardown is never
      undone. */
  lemma StepSlots(m: MountState, e: Event)
    ensures Untouched(m.style, Step(m, e).next.style)
    ensures m.closed ==> Step(m, e).next.closed
    ensures !Step(m, e).next.closed && Step(m, e).out != [] ==>
      Shows(Step(m, e).next.style, Step(m, e).out[|Step(m, e).out| - 1].offset)
    ensures !Step(m, e).next.closed && Step(m, e).out == [] ==> SameSlots(m.style, Step(m, e).next.style)
    ensures Step(m, e).next.el == m.el
  {
    match e
    case Upstream(ge) =>
      if !m.closed {
        var g := Gate.Step(m.gate, ge);
        PushPublishesInOrder(m.(gate := g.next), g.out);
      }
    case PointerDown =>
      if m.armed && !m.closed {
        var g := Gate.Step(m.gate, Gate.FocusChanged(false));
        PushPublishesInOrder(m.(armed := false, gate := g.next), g.out);
      }
    case Teardown =>
  }

  /** Over any trace: while the component is mounted, the tooltip properties
      hold the offset of the most recent published record (or are as they
      were if nothing was published), and no other property of the marker
      ever changes. */
  lemma {:induction false} SlotsFollowLastEmission(m: MountState, evs: seq<Event>)
    ensures Untouched(m.style, Run(m, evs).next.style)
    ensures m.closed ==> Run(m, evs).next.closed
    ensures !Run(m, evs).next.closed && Run(m, evs).out != [] ==>
      Shows(Run(m, evs).next.style, Run(m, evs).out[|Run(m, evs).out| - 1].offset)
    ensures !Run(m, evs).next.closed && Run(m, evs).out == [] ==> SameSlots(m.style, Run(m, evs).next.style)
    decreases |evs|
  {
    if evs != [] {
      var before := Run(m, evs[..|evs| - 1]);
      SlotsFollowLastEmission(m, evs[..|evs| - 1]);
      StepSlots(before.next, evs[|evs| - 1]);
    }
  }

  /** One more event at the end of a trace. */
  lemma RunSnoc(m: MountState, evs: seq<Event>, e: Event)
    ensures Run(m, evs + [e]) ==
      Trace(Step(Run(m, evs).next, e).next,
            Run(m, evs).out + Step(Run(m, evs).next, e).out,
            Run(m, evs).prevented + if Step(Run(m, evs).next, e).prevented then 1 else 0)
  {
    assert (evs + [e])[..|evs|] == evs;
  }

  lemma {:induction false} RunAppend(m: MountState, a: seq<Event>, b: seq<Event>)
    ensures Run(m, a + b).next == Run(Run(m, a).next, b).next
    ensures Run(m, a + b).out == Run(m, a).out + Run(Run(m, a).next, b).out
    ensures Run(m, a + b).prevented == Run(m, a).prevented + Run(Run(m, a).next, b).prevented
    decreases |b|
  {
    if b == [] {
      assert a + b == a;
    } else {
      var init, e := b[..|b| - 1], b[|b| - 1];
      assert b == init + [e];
      assert a + b == (a + init) + [e];
      RunAppend(m, a, init);
      RunSnoc(m, a + init, e);
      RunSnoc(Run(m, a).next, init, e);
    }
  }

  /** Teardown removes both tooltip properties whatever the prior state,
      touches nothing else, publishes nothing, and doing it again changes
      nothing. */
  lemma TeardownClears(m: MountState)
    ensures Cleared(Step(m, Teardown).next.style)
    ensures Untouched(m.style, Step(m, Teardown).next.style)
    ensures Step(m, Teardown).out == [] && Step(m, Teardown).next.closed
    ensures Step(Step(m, Teardown).next, Teardown).next == Step(m, Teardown).next
  {
    SinkCompleteIdempotent(m.style);
  }

  /** After teardown no event publishes anything or brings a tooltip
      property back. */
  lemma {:induction false} ClosedIsFinal(m: MountState, evs: seq<Event>)
    requires m.closed && Cleared(m.style)
    ensures Run(m, evs).out == []
    ensures Run(m, evs).next.closed && Cleared(Run(m, evs).next.style)
    decreases |evs|
  {
    if evs != [] {
      ClosedIsFinal(m, evs[..|evs| - 1]);
    }
  }

  /** Whatever came before and comes after a teardown: everything published
      was published before it, and the marker ends without tooltip
      properties. */
  lemma TeardownIsFinal(m: MountState, before: seq<Event>, after: seq<Event>)
    ensures Run(m, before + [Teardown] + after).out == Run(m, before).out
    ensures Cleared(Run(m, before + [Teardown] + after).next.style)
  {
    RunAppend(m, before + [Teardown], after);
    RunAppend(m, before, [Teardown]);
    assert [Teardown][..0] == [];
    var down := Run(m, before + [Teardown]).next;
    ClosedIsFinal(down, after);
  }

  /** While closed (or before any focus value), a pointer-down does nothing. */
  lemma PointerDownInert(m: MountState)
    requires MountInv(m) && !m.gate.active
    ensures Step(m, PointerDown) == Reaction(m, [], false)
  {
  }

  /** While open and mounted, the first pointer-down prevents the default
      action and blurs the marker: one closed state is published with the
      current offset, the detector is disarmed, and a second pointer-down
      does nothing. */
  lemma DismissWhileActive(m: MountState)
    requires MountInv(m) && !m.closed && m.gate.active
    ensures Step(m, PointerDown).prevented
    ensures Step(m, PointerDown).out == [Component(m.el, false, Offset(m.gate.anchor, m.gate.scroll))]
    ensures !Step(m, PointerDown).next.gate.active && !Step(m, PointerDown).next.armed
    ensures Shows(Step(m, PointerDown).next.style, Offset(m.gate.anchor, m.gate.scroll))
    ensures Step(Step(m, PointerDown).next, PointerDown) == Reaction(Step(m, PointerDown).next, [], false)
  {
    var g := Gate.Step(m.gate, Gate.FocusChanged(false));
    PushPublishesInOrder(m.(armed := false, gate := g.next), g.out);
  }

  /** While mounted, the component publishes exactly what the gate emits, in
      the same order, each record with the marker as `ref`, and its gate
      evolves as the gate alone would. */
  lemma {:induction false} RepublishesGate(m: MountState, gevs: seq<Gate.GateEvent>)
    requires !m.closed
    ensures Run(m, Lift(gevs)).next.gate == Gate.Run(m.gate, gevs).next
    ensures !Run(m, Lift(gevs)).next.closed && Run(m, Lift(gevs)).next.el == m.el
    ensures Run(m, Lift(gevs)).prevented == 0
    ensures |Run(m, Lift(gevs)).out| == |Gate.Run(m.gate, gevs).out|
    ensures forall i :: 0 <= i < |Gate.Run(m.gate, gevs).out| ==>
      Run(m, Lift(gevs)).out[i] == Publish(m.el, Gate.Run(m.gate, gevs).out[i])
    decreases |gevs|
  {
    if gevs != [] {
      var n := |gevs|;
      var init := gevs[..n - 1];
      assert Lift(gevs)[..n - 1] == Lift(init);
      RepublishesGate(m, init);
      var before := Run(m, Lift(init));
      var g := Gate.Step(before.next.gate, gevs[n - 1]);
      PushPublishesInOrder(before.next.(gate := g.next), g.out);
    }
  }
}
