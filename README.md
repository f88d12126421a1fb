# Mini gallery carousel, modelled in Dafny

`minigallery-0.1.js` is a jQuery plugin that turns a block of navigation links and a list of
panels (`ul`s of `li` items) into a sliding carousel. `init` lays the panels out. Each panel is
as wide as its items and its items are absolutely positioned by their `left` style. Only the
first panel is shown and carries `mini-gallery-active`, and the first link is `active`.

Clicking an inactive link starts a transition:

- the links' `active` class moves to the clicked link;
- every item of the active panel is scheduled, staggered by `delay`, to slide off screen
  (to `-offset` going forward and `+offset` going back);
- one reveal timer is armed for `animateDurationIn + delay * outgoing items`.

When the reveal timer fires, the clicked panel becomes active, the old panel is hidden and the
new one shown. Each incoming item then snaps to the same off-screen side and is scheduled to
slide to its slot, `index * (width + 2 * padding)`.

The model has two modules.

- `Layout` (layout.dfy) holds the options and the plugin defaults, together with the layout
  and timing arithmetic as pure functions. These cover slots, panel width, the initial
  positions, the direction test, the stagger and the reveal time. The moves a click or a reveal
  schedules are values (`Animation`), and `Apply`/`ApplyAll` compute where items are once the
  moves complete. Lemmas state what the source promises about all of them.
- `Carousel` (carousel.dfy) holds the class `Gallery`, the state of one initialised gallery:
  - the `left` of every item, panel by panel;
  - the panel widths;
  - the panel `visible` / `mini-gallery-active` flags and the link `active` flags;
  - the log of scheduled moves;
  - the pending reveal timer.

  The constructor is `init`. `Click` is the click handler up to and including the arming of the
  reveal timer (lines 111-157, with the delay of line 177), and `FireReveal` is
  the reveal callback (lines 157-177). `Complete` lets every scheduled move run to its end, and
  `Navigate` chains the three. Timers are data: a click arms the reveal as a `Reveal` value, and
  moves are appended to the log in the order the handler schedules them.

Quirks of the code are modelled as written:

- Going back, the stagger of item `i` of an `n`-item list is `(n - i) * delay`, so the first
  item waits `n * delay`.
- Outgoing moves use `animateDurationIn`/`easeIn` and incoming moves use
  `animateDurationOut`/`easeOut`.
- An undefined order makes `currentOrder < clickedOrder` false.
- The handler hides and shows a panel through the parent of its items. An empty panel is
  therefore never hidden or shown by a click, and keeps the visibility `init` gave it.

The incoming slots are spaced by `width + 2 * padding` (line 173). With the defaults the slots
are 0, 160 and 320 px, and `Layout.DefaultTransition` states a three-panel transition with
these values.

## Model

| member | source | states |
|---|---|---|
| Layout.Pitch | minigallery-0.1.js:70 | the distance between neighbouring slots, `width + 2 * padding`, the factor of lines 70, 87 and 173; with the defaults it is 160 px (`Layout.DefaultPanelWidth`) |
| Layout.RestingLeft | minigallery-0.1.js:87 | the slot of item i, i·pitch, where init puts the first panel's items (line 87) and where incoming items slide to (line 173); `Layout.PanelWidth` states that a panel ends where its last slot ends, `Layout.InitialLefts`/`AtRest` that init leaves panel 0 in its slots |
| Layout.Resting | minigallery-0.1.js:173 | the slots of all n items of a panel; `Layout.TransitionLands` states that incoming items land there (through `Landed`), and `Layout.DefaultTransition` that with the defaults they are 0/160/320 px |
| Layout.PanelWidth | minigallery-0.1.js:67-70 | a panel ends exactly where the slot of its last item ends (last resting left plus one pitch); an empty panel is 0 px wide |
| Layout.DefaultPanelWidth | minigallery-0.1.js:16-27 | with the default width 150 and padding 5, items are 160 px apart and a panel of n items is 160·n px wide |
| Layout.InitialPanel | minigallery-0.1.js:77-95 | init puts item i of the first panel at its slot i·(width+2·padding) and every item of any other panel at `offset` |
| Layout.InitialLefts | minigallery-0.1.js:63-96 | one position per item of every panel; after init the carousel is at rest on panel 0 and every item of the other panels is at `offset` |
| Layout.DirectionSign | minigallery-0.1.js:130-140 | the side is negative exactly when both orders are defined and the current one is smaller; it is positive otherwise, including an undefined order; it is always off screen |
| Layout.Stagger | minigallery-0.1.js:147 | the timer delay of item i of an n-item list: i·delay going forward, (n−i)·delay going back (line 165 uses the same formula); its bounds are `Layout.StaggerBounds` |
| Layout.Forward | minigallery-0.1.js:135 | JavaScript's `currentOrder < clickedOrder`, false when either order is undefined; proved with `Layout.DirectionSign` |
| Layout.OffsetSide | minigallery-0.1.js:135-140 | `-offset` going forward, `+offset` otherwise; its sign and off-screen place are `Layout.DirectionSign` |
| Layout.RevealTime | minigallery-0.1.js:177 | the reveal timer's delay, `animateDurationIn + delay` per outgoing item; that every outgoing move has ended by then is `Layout.OutgoingEndsByReveal` |
| Layout.Apply | minigallery-0.1.js:149-153 | the end of one `animate` call: it keeps one position per item; which position it changes is `Layout.ApplyMoves` |
| Layout.ApplyAll | minigallery-0.1.js:149-175 | the end of a log of `animate` calls (the outgoing ones of lines 149-153 and the incoming ones of lines 171-175), completed in the order scheduled; it keeps one position per item; the last move for an item wins (`Layout.LastMoveWins`), unnamed items stay (`Layout.Untouched`) |
| Layout.Fill | minigallery-0.1.js:167-169 | every item of one panel snapped to the same `left`; used by `FireReveal` and `Layout.TransitionLands` |
| Layout.StaggerBounds | minigallery-0.1.js:147 | each stagger lies between 0 and n·delay; going forward the last item still starts one delay before n·delay; going back no item starts before one delay |
| Layout.OutgoingPlan | minigallery-0.1.js:145-154 | the click schedules one move per outgoing item, item i as the i-th move, all of the outgoing panel |
| Layout.IncomingPlan | minigallery-0.1.js:163-176 | the reveal schedules one move per incoming item, item i as the i-th move, all of the incoming panel |
| Layout.OutgoingEndsByReveal | minigallery-0.1.js:145-177 | every outgoing move starts no earlier than the click and has ended by the time the reveal timer fires |
| Layout.NoOverlap | minigallery-0.1.js:145-177 | no incoming move starts before every outgoing move has ended |
| Layout.CaretLeft | minigallery-0.1.js:186 | the caret's `left` is half the link's width less the hard-coded 10 px |
| Layout.ApplyMoves | minigallery-0.1.js:149-153 | a completed move sets its own item's `left` to its target and leaves every other item where it was |
| Layout.LastMoveWins | minigallery-0.1.js:149-153 | once a log of moves completes, an item sits at the target of the last move scheduled for it |
| Layout.Untouched | minigallery-0.1.js:149-153 | an item no scheduled move names keeps its position |
| Layout.ApplyAllConcat | minigallery-0.1.js:145-177 | completing the click's moves and then the reveal's moves is the same as completing the joined log |
| Layout.ApplySweep | minigallery-0.1.js:145-154 | a plan that moves each item of one panel once, in order, leaves that panel at the plan's targets and every other panel unchanged |
| Layout.TransitionLands | minigallery-0.1.js:143-176 | after the reveal snaps the incoming items and all moves complete, the outgoing items are at the off-screen side, the incoming ones in their slots, and every other panel is unchanged |
| Layout.LandedAtRest | minigallery-0.1.js:111-178 | a transition started from a carousel at rest leaves it at rest on the clicked panel, every other item off screen |
| Layout.DefaultTransition | minigallery-0.1.js:111-177 | three panels of 2, 3 and 1 items with the defaults, link 1 clicked: side -3000, outgoing moves at 0 and 50 ms, reveal at 300 ms, incoming moves at 300/350/400 ms to 0/160/320 px, final positions |
| Carousel.Gallery.constructor | minigallery-0.1.js:55-108 | init leaves the gallery settled: first panel active and shown, others hidden, first link active, positions as in `InitialLefts`, each panel as wide as its items |
| Carousel.Gallery.LayOutPanels | minigallery-0.1.js:63-96 | the loop over the lists yields the initial positions of every panel and each panel's width |
| Carousel.Gallery.PlaceItems | minigallery-0.1.js:77-95 | the loop over a list's items places them as init does |
| Carousel.Gallery.FindActive | minigallery-0.1.js:130 | the first panel carrying `mini-gallery-active`, or none when no panel carries it |
| Carousel.Gallery.ClearAll | minigallery-0.1.js:119 | after `removeClass` no element of the selection carries the class |
| Carousel.Gallery.Click | minigallery-0.1.js:111-157 | a click on the active link changes nothing; any other click makes the clicked link the only active one, clears every panel's active flag, appends the outgoing plan to the log and arms the reveal at the reveal time of line 177; positions and visibility are unchanged; the gallery stays valid |
| Carousel.Gallery.ScheduleOut | minigallery-0.1.js:145-154 | the loop over the outgoing items yields exactly the outgoing plan |
| Carousel.Gallery.FireReveal | minigallery-0.1.js:157-177 | the clicked panel becomes the only active one; the old panel is hidden and the new one shown (when they have items); the incoming items snap to the side; the incoming plan is appended to the log; the timer is gone |
| Carousel.Gallery.ScheduleIn | minigallery-0.1.js:163-176 | the loop over the incoming items snaps every item to the side and yields exactly the incoming plan |
| Carousel.Gallery.Complete | minigallery-0.1.js:145-176 | every scheduled move runs to its end, in the order scheduled; the positions become `ApplyAll` of the log, and the log is emptied |
| Carousel.Gallery.Navigate | minigallery-0.1.js:111-178 | from a settled gallery, a click and its timers leave it settled on the clicked link; its items are in their slots, the old panel's items at the side, the rest unchanged |

## Left out

- DOM and jQuery plumbing are not modelled. This covers element lookup, ids, `data('order')`,
  and every CSS property other than `left`, `width` and visibility (height, margin, padding,
  list style, the wrapper's overflow).
- The plugin wrapper's guard against initialising an element twice (lines 201-207) is not
  modelled, because it is jQuery bookkeeping outside the carousel state.
- Easing curves and intermediate animation frames are not modelled: a move is recorded with its
  start, duration and easing, and only its end position is applied.
- Real timers are not modelled. Moves complete in the order they were scheduled, not in the
  order of their start times: going back, the outgoing starts decrease along the log. Within
  one transition this makes no difference, because each item moves once and incoming moves start
  after every outgoing move has ended (`Layout.NoOverlap`). Wall-clock interleaving across
  transitions is not captured.
- Layout.CaretLeft: only the formula of line 186 is kept. The caret's own width is set outside
  the plugin, so the model makes no claim that the caret ends up centred.
- Carousel.Gallery.Click: a click that starts a transition is required to find no reveal timer
  pending. In the source, a click inside that window finds no active panel, sends nothing out,
  and lets two reveal timers race. That race is not modelled.
- The caret's fade-out, removal and re-insertion are not modelled, and neither are `el.width()`
  and the page-wide caret selector. Only the caret's `left` (`Layout.CaretLeft`) is, with the
  link width as a real parameter.
- Links are assumed to refer to panels in order: link k's `href` names panel k. The model
  also has exactly one link per panel, while the plugin accepts markup with fewer or more
  links than lists (lines 63, 107, 111). Malformed `href`s that name no panel are not modelled.
- A gallery without panels is not modelled (the constructor requires at least one).
- Timings are non-negative whole milliseconds and pixel options are whole numbers (negative
  pixel values are within the model). Negative timings and fractional values are not modelled.
