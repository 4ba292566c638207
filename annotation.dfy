/** The code annotation as the program runs it: one object per mounted marker,
    updated in place as events arrive. Each event method is proved to do what
    `Mount.Step` specifies, so every property proved of the specification
    holds of the object. */
module CodeAnnotation {
  import opened Geometry
  import Gate
  import Mount

  class AnnotationComponent {
    /** The marker element, the `ref` of every published record. */
    const el: Mount.Element
    /** The focus value that started the live derivation. */
    var active: bool
    /** How many more values the live derivation's `take` lets through. */
    var budget: Gate.Budget
    /** Latest value of the marker's element offset. */
    var anchor: Point
    /** Latest value of the code block's content (scroll) offset. */
    var scroll: Point
    /** The marker's inline style. */
    var style: Mount.Style
    /** Whether the one-shot outside-click detector is armed. */
    var armed: bool
    /** Whether the component has been torn down. */
    var closed: bool
    /** Every record published so far. */
    ghost var Published: seq<Mount.Component>

    function View(): Mount.MountState
      reads this
    {
      Mount.MountState(Gate.GateState(active, budget, anchor, scroll), el, style, armed, closed)
    }

    ghost predicate Valid()
      reads this
    {
      Mount.MountInv(View())
    }

    /** Subscribing: no measurement is acted upon and nothing is armed until
        the focus source reports a value. */
    constructor (el: Mount.Element, style: Mount.Style, anchor: Point, scroll: Point)
      ensures Valid()
      ensures View() == Mount.Initial(el, style, anchor, scroll)
      ensures Published == []
    {
      this.el := el;
      this.style := style;
      this.anchor, this.scroll := anchor, scroll;
      active, budget := false, Gate.Finite(0);
      armed, closed := false, false;
      Published := [];
    }

    /** A combined geometry value reaching the live derivation's `take`; if it
        passes, it is pushed to the sink (tooltip properties, detector) and
        published with the marker. */
    method Derive() returns (out: seq<Mount.Component>)
      requires !closed
      modifies this
      ensures View() == Mount.Push(old(View()).(gate := Gate.Derive(old(View()).gate).next),
                                   Gate.Derive(old(View()).gate).out).next
      ensures out == Mount.Push(old(View()).(gate := Gate.Derive(old(View()).gate).next),
                                Gate.Derive(old(View()).gate).out).out
      ensures Published == old(Published) + out
      ensures active == old(active) && anchor == old(anchor) && scroll == old(scroll) && closed == old(closed)
      ensures Gate.Live(old(budget)) ==> out == [Mount.Component(el, active, Offset(anchor, scroll))] && armed == active
      ensures !Gate.Live(old(budget)) ==> out == [] && View() == old(View())
    {
      if budget.Unbounded? || budget.n > 0 {
        if budget.Finite? {
          budget := Gate.Finite(budget.n - 1);
        }
        var state := Gate.Annotation(active, Offset(anchor, scroll));
        // the sink's `next`
        style := style[Mount.TooltipX := state.offset.x];
        style := style[Mount.TooltipY := state.offset.y];
        // switchMap to the one-shot detector while open, to nothing while closed
        armed := state.active;
        var record := Mount.Component(el, state.active, state.offset);
        Published := Published + [record];
        out := [record];
        assert [state][..0] == [];
      } else {
        out := [];
      }
    }

    /** A focus value: the live derivation is replaced by a fresh one, limited
        by `take(+!active || Infinity)`, which reads the current geometry at
        once. */
    method SwitchTo(focus: bool) returns (out: seq<Mount.Component>)
      modifies this
      ensures View() == Mount.Deliver(old(View()), Gate.FocusChanged(focus)).next
      ensures out == Mount.Deliver(old(View()), Gate.FocusChanged(focus)).out
      ensures Published == old(Published) + out
      ensures closed == old(closed) && anchor == old(anchor) && scroll == old(scroll)
      ensures !old(closed) ==> active == focus && armed == focus
      ensures !old(closed) ==> out == [Mount.Component(el, focus, Offset(anchor, scroll))]
      ensures old(closed) ==> out == [] && View() == old(View())
    {
      if closed {
        out := [];
        return;
      }
      active := focus;
      budget := Gate.TakeCount(focus);
      out := Derive();
    }

    /** The focus source reports a value. */
    method FocusChanged(focus: bool) returns (out: seq<Mount.Component>)
      requires Valid()
      modifies this
      ensures Valid()
      ensures View() == Mount.Step(old(View()), Mount.Upstream(Gate.FocusChanged(focus))).next
      ensures out == Mount.Step(old(View()), Mount.Upstream(Gate.FocusChanged(focus))).out
      ensures Published == old(Published) + out
      ensures closed == old(closed) && anchor == old(anchor) && scroll == old(scroll)
      ensures !closed ==> active == focus && armed == focus
      ensures !closed ==> out == [Mount.Component(el, focus, Offset(anchor, scroll))]
      ensures old(closed) ==> out == [] && View() == old(View())
    {
      out := SwitchTo(focus);
      Mount.StepKeepsInv(old(View()), Mount.Upstream(Gate.FocusChanged(focus)));
    }

    /** The marker's element offset changes. */
    method AnchorMoved(p: Point) returns (out: seq<Mount.Component>)
      requires Valid()
      modifies this
      ensures Valid()
      ensures View() == Mount.Step(old(View()), Mount.Upstream(Gate.AnchorMoved(p))).next
      ensures out == Mount.Step(old(View()), Mount.Upstream(Gate.AnchorMoved(p))).out
      ensures Published == old(Published) + out
      ensures out == if !old(closed) && old(active) then [Mount.Component(el, true, Offset(p, scroll))] else []
      ensures active == old(active) && closed == old(closed) && scroll == old(scroll)
      ensures anchor == if old(closed) then old(anchor) else p
    {
      if closed {
        out := [];
        return;
      }
      anchor := p;
      out := Derive();
      Mount.StepKeepsInv(old(View()), Mount.Upstream(Gate.AnchorMoved(p)));
    }

    /** The code block's content (scroll) offset changes. */
    method ContainerScrolled(p: Point) returns (out: seq<Mount.Component>)
      requires Valid()
      modifies this
      ensures Valid()
      ensures View() == Mount.Step(old(View()), Mount.Upstream(Gate.ContainerScrolled(p))).next
      ensures out == Mount.Step(old(View()), Mount.Upstream(Gate.ContainerScrolled(p))).out
      ensures Published == old(Published) + out
      ensures out == if !old(closed) && old(active) then [Mount.Component(el, true, Offset(anchor, p))] else []
      ensures active == old(active) && closed == old(closed) && anchor == old(anchor)
      ensures scroll == if old(closed) then old(scroll) else p
    {
      if closed {
        out := [];
        return;
      }
      scroll := p;
      out := Derive();
      Mount.StepKeepsInv(old(View()), Mount.Upstream(Gate.ContainerScrolled(p)));
    }

    /** A mousedown on the detector's element. */
    method PointerDown() returns (prevented: bool, out: seq<Mount.Component>)
      requires Valid()
      modifies this
      ensures Valid()
      ensures View() == Mount.Step(old(View()), Mount.PointerDown).next
      ensures out == Mount.Step(old(View()), Mount.PointerDown).out
      ensures prevented == Mount.Step(old(View()), Mount.PointerDown).prevented
      ensures Published == old(Published) + out
      ensures prevented == old(armed) && !armed
      ensures closed == old(closed) && anchor == old(anchor) && scroll == old(scroll)
      ensures !old(armed) ==> out == [] && View() == old(View())
      ensures old(armed) && !old(closed) ==> !active && out == [Mount.Component(el, false, Offset(anchor, scroll))]
    {
      if !armed {
        prevented, out := false, [];
        return;
      }
      armed := false;         // `once: true`: the listener is gone
      prevented := true;      // `preventDefault()`
      out := SwitchTo(false); // `blur()`: the focus source reports a focus-out
      Mount.StepKeepsInv(old(View()), Mount.PointerDown);
    }

    /** Unsubscription: the sink completes and removes both tooltip
        properties. */
    method Teardown()
      requires Valid()
      modifies this
      ensures Valid()
      ensures View() == Mount.Step(old(View()), Mount.Teardown).next
      ensures Published == old(Published)
      ensures closed && Mount.Cleared(style) && Mount.Untouched(old(style), style)
    {
      style := style - {Mount.TooltipX};
      style := style - {Mount.TooltipY};
      closed := true;
    }
  }

  /** A worked session: the marker is focused, its code block scrolls, focus
      leaves, then geometry changes and a click arrive while it is closed;
      the same component then goes on in `SessionResume`. */
  method SessionOpenScrollClose() {
    var marker := Mount.Element(1);
    var c := new AnnotationComponent(marker, map["color" := 3], Point(112, 50), Point(100, 16));
    var out := c.FocusChanged(true);
    assert out == [Mount.Component(marker, true, Point(12, 34))];
    out := c.ContainerScrolled(Point(100, 26));
    assert out == [Mount.Component(marker, true, Point(12, 24))];
    out := c.FocusChanged(false);
    assert out == [Mount.Component(marker, false, Point(12, 24))];
    out := c.AnchorMoved(Point(120, 50));
    assert out == [];
    var prevented;
    prevented, out := c.PointerDown();
    assert !prevented && out == [];
    SessionResume(c);
  }

  /** The session continued on the closed component: the marker is focused
      again and tracking resumes from the current geometry, a click dismisses
      it, a second click does nothing, and teardown clears the tooltip
      properties only. */
  method SessionResume(c: AnnotationComponent)
    requires c.Valid() && !c.closed && !c.active
    requires c.anchor == Point(120, 50) && c.scroll == Point(100, 26)
    requires "color" in c.style && c.style["color"] == 3
    modifies c
  {
    var out := c.FocusChanged(true);
    assert out == [Mount.Component(c.el, true, Point(20, 24))];
    var prevented;
    prevented, out := c.PointerDown();
    assert prevented && out == [Mount.Component(c.el, false, Point(20, 24))];
    prevented, out := c.PointerDown();
    assert !prevented && out == [];
    c.Teardown();
    assert Mount.Cleared(c.style) && c.style["color"] == 3;
  }
}
