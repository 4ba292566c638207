# Code annotation tooltip: a verified model

A code annotation is a marker inside a code block. When the marker is focused,
its tooltip opens. When it loses focus, the tooltip closes. The tooltip's
position is written into two custom style properties of the marker,
`--md-tooltip-x` and `--md-tooltip-y`. Their values are the marker's element
offset minus the code block's scroll offset.

The source wires this up with RxJS operators in
`src/assets/javascripts/components/content/code/annotation/_/index.ts`. This
project models the wiring as an explicit event-driven machine and proves what it
promises.

- `Geometry`: pixel points and `Offset`, the map at lines 79-82.
- `Gate` (`watchAnnotation`): the focus-gated derivation. Every focus value
  replaces the live derivation (`switchMap`). The new derivation is limited
  by `take(+!active || Infinity)`: one value after a focus-out, no limit after
  a focus-in. `Budget` counts down what `take` still lets through. `Step`
  gives the reaction to one upstream value and `Run` the reaction to a trace.
  Lemmas state the two-state behaviour over any trace.
- `Mount` (`mountAnnotation`): the sink that writes the style properties on
  `next` and removes them on `complete`. Also the one-shot outside-click
  detector, armed (until teardown) exactly while the last pushed state is
  open, and the republished `{ ref: el, ...state }` records. The marker's inline style is a
  `map<string, int>`, so "nothing else on the element changes" can be stated.
  Events are `Upstream` (a focus or geometry value), `PointerDown` and
  `Teardown`.
- `CodeAnnotation.AnnotationComponent`: the component as a class, updated in
  place with one method per event. Each event method is proved to produce
  the state and the output that `Mount.Step` specifies, and to keep the
  invariant `Mount.MountInv`. Two client methods replay one worked session on
  a single component: focus, scroll, close, a geometry change and a stray
  click while closed, then (`SessionResume`, on the same object) re-focus with
  tracking resumed from the current geometry, dismissal by click, a second
  click that does nothing, and teardown.

Assumption: the geometry sources `watchElementOffset` and
`watchElementContentOffset` emit their current value as soon as they are
subscribed to. They are not part of this model. Under this assumption, each
focus value makes the fresh `combineLatest` emit once, at once, from the
current geometry. Focus values, geometry changes, mouse-downs on the detector's
element and unsubscription are inputs to the model.

The detector is the inner subscription of a `switchMap` on
the push subject (lines 128-133), and completing the subject does not end
that subscription. So a detector armed at teardown stays armed. A mouse-down
then still prevents the default action and blurs the marker. But the state
stream is gone, so nothing more is published and the style properties stay
removed (`Mount.Step`, `Mount.ClosedIsFinal`).

## Model

| member | source | states |
|---|---|---|
| Geometry.Offset | src/assets/javascripts/components/content/code/annotation/_/index.ts:79-82 | per component, the offset plus the container's scroll offset gives back the anchor offset |
| Gate.TakeCount | src/assets/javascripts/components/content/code/annotation/_/index.ts:91 | the `take` count is unbounded exactly when the focus value is true, and exactly 1 when it is false |
| Gate.Derive | src/assets/javascripts/components/content/code/annotation/_/index.ts:90-91 | one combined geometry value reaching `map` and `take`: a state is emitted exactly when the budget is not spent, tagged with the derivation's focus value and the current offset; a finite budget goes down by one, an unbounded one stays unbounded; a spent budget changes nothing; focus and geometry are unchanged |
| Gate.Run | src/assets/javascripts/components/content/code/annotation/_/index.ts:86-94 | the gate's reaction to a trace: no more states in total than upstream values. Further specified by `RunKeepsInv`, `RunTracksSources`, `LatestFocusWins`, `EmittedOffsetIsCurrent`, `QuietWhileInactive`, `FocusLossEmitsOnce` and `FocusGainTracks` |
| Gate.Step | src/assets/javascripts/components/content/code/annotation/_/index.ts:86-94 | one upstream value yields at most one state; every state carries the gate's current focus value and the offset of its current geometry; a focus value always yields exactly one state and becomes the gate's focus value; geometry values leave the focus value alone and yield a state exactly when the live derivation's budget allows it; each geometry source's latest value is remembered |
| Gate.StepKeepsInv | src/assets/javascripts/components/content/code/annotation/_/index.ts:88-91 | between events, an open gate has an unbounded budget and a closed one has none left |
| Gate.RunKeepsInv | src/assets/javascripts/components/content/code/annotation/_/index.ts:86-94 | that invariant holds after any trace |
| Gate.RunTracksSources | src/assets/javascripts/components/content/code/annotation/_/index.ts:74-90 | after any trace, the gate holds the latest focus value, the latest anchor offset and the latest scroll offset, as defined independently by `LastFocus`, `AnchorAfter` and `ScrollAfter` |
| Gate.RunAppend | src/assets/javascripts/components/content/code/annotation/_/index.ts:86-94 | running a concatenated trace is running its two parts one after the other, with the outputs concatenated in order |
| Gate.LatestFocusWins | src/assets/javascripts/components/content/code/annotation/_/index.ts:88-90 | after any history, every state emitted in response to an event carries the focus value of the most recent focus change, including that event |
| Gate.EmittedOffsetIsCurrent | src/assets/javascripts/components/content/code/annotation/_/index.ts:79-82 | after any history, every emitted offset is the latest anchor offset minus the latest scroll offset, for x and y |
| Gate.QuietWhileInactive | src/assets/javascripts/components/content/code/annotation/_/index.ts:91 | a closed gate emits nothing, and stays closed, under any trace of geometry changes |
| Gate.FocusLossEmitsOnce | src/assets/javascripts/components/content/code/annotation/_/index.ts:88-92 | a focus-out followed by any geometry changes emits exactly one state: closed, with the offset at the moment of the focus-out |
| Gate.TrackingWhileActive | src/assets/javascripts/components/content/code/annotation/_/index.ts:74-91 | an open gate emits exactly one open state per geometry change, from either source, each with the offset right after that change |
| Gate.FocusGainTracks | src/assets/javascripts/components/content/code/annotation/_/index.ts:86-94 | a focus-in followed by n geometry changes emits n+1 open states: the current offset at once, then the offset after each change |
| Mount.SinkNext | src/assets/javascripts/components/content/code/annotation/_/index.ts:113-116 | after `next`, both tooltip properties hold the state's offset, and every other style property is unchanged |
| Mount.SinkComplete | src/assets/javascripts/components/content/code/annotation/_/index.ts:119-122 | after `complete`, neither tooltip property is present, and every other style property is unchanged |
| Mount.SinkCompleteIdempotent | src/assets/javascripts/components/content/code/annotation/_/index.ts:119-122 | removing the tooltip properties a second time changes nothing |
| Mount.Publish | src/assets/javascripts/components/content/code/annotation/_/index.ts:140 | a published record has `ref` equal to the marker, and stripping the marker gives back the state |
| Mount.Initial | src/assets/javascripts/components/content/code/annotation/_/index.ts:108-110 | the component right after subscription (the `defer`): it satisfies the component invariant, has no focus value and no live derivation, the detector is disarmed, it is not torn down, and the marker's style and the geometry are as given |
| Mount.Push | src/assets/javascripts/components/content/code/annotation/_/index.ts:138 | `tap(state => push$.next(state))` with the sink and the arming (lines 113-116, 130): one record per pushed state, nothing prevented, the gate, the marker and the teardown flag unchanged; the rest of its contract is `PushPublishesInOrder` |
| Mount.Deliver | src/assets/javascripts/components/content/code/annotation/_/index.ts:136-138 | an upstream value reaching the component: at most one record, nothing prevented; after teardown nothing changes and nothing is published; before it the gate moves as `Gate.Step` says, and every record has `ref` the marker and carries the gate's new focus value and current offset |
| Mount.Step | src/assets/javascripts/components/content/code/annotation/_/index.ts:113-141 | the reaction to one event: at most one record, each with `ref` the marker; the default action is prevented exactly on a pointer-down while armed, which disarms the detector and publishes only closed records; after teardown nothing is published; teardown publishes nothing and clears both tooltip properties. Further specified by `StepKeepsInv`, `StepSlots`, `DismissWhileActive`, `PointerDownInert` and `TeardownClears` |
| Mount.Run | src/assets/javascripts/components/content/code/annotation/_/index.ts:105-143 | the reaction to a trace: in total no more records, and no more prevented defaults, than events; the marker never changes, and teardown is never undone. Further specified by `RunKeepsInv`, `SlotsFollowLastEmission`, `TeardownIsFinal` and `RepublishesGate` |
| Mount.PushPublishesInOrder | src/assets/javascripts/components/content/code/annotation/_/index.ts:138-140 | pushing states publishes one record per state in the same order, each with `ref` the marker and the state's `active` and offset; the tooltip properties hold the last state's offset; the detector is armed exactly when the last state is open; nothing else changes |
| Mount.StepKeepsInv | src/assets/javascripts/components/content/code/annotation/_/index.ts:113-133 | every event keeps the component invariant: the gate invariant holds; the detector is armed only while open, and exactly while open until teardown; after teardown no tooltip property is present; an open, mounted marker shows the current offset |
| Mount.RunKeepsInv | src/assets/javascripts/components/content/code/annotation/_/index.ts:105-143 | the component invariant holds after any trace |
| Mount.OpenAnnotationShowsCurrentOffset | src/assets/javascripts/components/content/code/annotation/_/index.ts:113-116 | from subscription on, after any trace, an open and mounted marker's tooltip properties hold the offset of the current geometry |
| Mount.StepSlots | src/assets/javascripts/components/content/code/annotation/_/index.ts:113-122 | for one event: other style properties are untouched; teardown is never undone; while mounted, the tooltip properties hold the offset of the last record published, or are unchanged if none was published |
| Mount.SlotsFollowLastEmission | src/assets/javascripts/components/content/code/annotation/_/index.ts:113-116 | the same for any trace: while mounted, the tooltip properties hold the offset of the most recent published record, or are as they were if nothing was published; no other style property ever changes |
| Mount.RunSnoc | src/assets/javascripts/components/content/code/annotation/_/index.ts:136-141 | a trace extended by one event ends in the step's state, with that step's output and prevented count appended |
| Mount.RunAppend | src/assets/javascripts/components/content/code/annotation/_/index.ts:136-141 | running a concatenated trace is running its two parts in order: outputs concatenate and prevented counts add |
| Mount.TeardownClears | src/assets/javascripts/components/content/code/annotation/_/index.ts:119-122 | teardown removes both tooltip properties whatever the prior state, touches no other property, publishes nothing, and a second teardown changes nothing |
| Mount.ClosedIsFinal | src/assets/javascripts/components/content/code/annotation/_/index.ts:139 | after teardown, no trace publishes anything or brings a tooltip property back |
| Mount.TeardownIsFinal | src/assets/javascripts/components/content/code/annotation/_/index.ts:136-141 | for any trace before and after a teardown, everything published was published before it, and the marker ends without tooltip properties |
| Mount.PointerDownInert | src/assets/javascripts/components/content/code/annotation/_/index.ts:130 | while closed, and before any focus value, a pointer-down changes nothing, publishes nothing and prevents nothing |
| Mount.DismissWhileActive | src/assets/javascripts/components/content/code/annotation/_/index.ts:126-133 | while open and mounted, a pointer-down prevents the default action; through the blur it publishes exactly one closed record with the current offset; it disarms the detector; a second pointer-down then does nothing |
| Mount.RepublishesGate | src/assets/javascripts/components/content/code/annotation/_/index.ts:136-140 | while mounted, over any trace of upstream values, the component publishes exactly the gate's states in order, each with `ref` the marker, and its gate evolves as the gate alone would |
| CodeAnnotation.AnnotationComponent.constructor | src/assets/javascripts/components/content/code/annotation/_/index.ts:105-110 | a fresh component is the initial state: no live derivation, detector disarmed, style as given, nothing published |
| CodeAnnotation.AnnotationComponent.Derive | src/assets/javascripts/components/content/code/annotation/_/index.ts:79-91 | a geometry value that `take` lets through publishes exactly one record with the current focus value and offset, arms the detector exactly when open, and consumes one unit of a finite budget; otherwise nothing changes |
| CodeAnnotation.AnnotationComponent.SwitchTo | src/assets/javascripts/components/content/code/annotation/_/index.ts:88-91 | while mounted, a focus value replaces the derivation and publishes exactly one record with that focus value and the current offset; after teardown it does nothing |
| CodeAnnotation.AnnotationComponent.FocusChanged | src/assets/javascripts/components/content/code/annotation/_/index.ts:86-94 | the object does what `Mount.Step` specifies for a focus value and keeps the invariant |
| CodeAnnotation.AnnotationComponent.AnchorMoved | src/assets/javascripts/components/content/code/annotation/_/index.ts:75 | an anchor move publishes one open record with the new offset exactly when open and mounted, and nothing otherwise, as `Mount.Step` specifies |
| CodeAnnotation.AnnotationComponent.ContainerScrolled | src/assets/javascripts/components/content/code/annotation/_/index.ts:76 | a scroll change publishes one open record with the new offset exactly when open and mounted, and nothing otherwise, as `Mount.Step` specifies |
| CodeAnnotation.AnnotationComponent.PointerDown | src/assets/javascripts/components/content/code/annotation/_/index.ts:127-133 | the default action is prevented exactly when the detector was armed; the detector is disarmed afterwards; while mounted, firing publishes one closed record; an unarmed pointer-down changes nothing |
| CodeAnnotation.AnnotationComponent.Teardown | src/assets/javascripts/components/content/code/annotation/_/index.ts:119-122 | both tooltip properties are removed, no other style property changes, the component is closed, and the invariant holds |

## Left out

- The geometry and focus primitives (`watchElementOffset`, `watchElementContentOffset`, `watchElementFocus`) are not part of this model. Their values are event inputs. The model assumes the geometry sources emit their current value on subscription.
- `getElement(":scope > :last-child")` and `fromEvent` listener registration are not part of this model. `PointerDown` stands for a mouse-down on that element, and `el.blur()` for the focus-out it makes the focus source report.
- Subjects, `defer`, subscription bookkeeping and scheduling are modelled only by their effect: the state transitions of `Mount.Step`.
- Pixel values are integers, and the `${n}px` string formatting is not modelled. Browser offsets can be fractional.
- Error propagation from the upstream sources is not modelled. The code has no domain logic for errors: a failure ends the whole stream.
- Whether the document still delivers events to the detector after teardown is outside the code. The model follows the code's subscriptions, as described above.
