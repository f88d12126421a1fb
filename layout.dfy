/** Layout and timing arithmetic of the mini gallery carousel: where items rest,
    how wide a panel is, how outgoing and incoming moves are staggered, which way
    a transition slides, and where items end up once scheduled moves complete. */
module Layout {

  datatype Option<T> = None | Some(value: T)

  /** The plugin options. Pixels are whole numbers and timings whole, non-negative
      milliseconds. `height` only sets CSS heights (lines 72 and 101 of the plugin), which
      this model does not track; no function here reads it. */
  datatype Config = Config(
    width: int,
    height: int,
    offset: int,
    delay: nat,
    padding: int,
    animateDurationIn: nat,
    animateDurationOut: nat,
    easeIn: string,
    easeOut: string)

  /** The plugin's defaults. */
  const Defaults := Config(150, 150, 3000, 50, 5, 200, 800, "easeInQuint", "easeInOutElastic")

  /** The 10 px addCaret subtracts from half the width of the link; the caret's own size is
      set by the page's style sheet, not by the plugin. */
  const CaretShift := 10.0

  /** One scheduled move: after `start` ms, item `item` of panel `panel` slides to
      `left == target` over `duration` ms with easing `ease`. `start` is counted from the click
      that scheduled the move (for an incoming move, the click that armed its reveal timer);
      a log that spans two clicks holds moves counted from different clicks. */
  datatype Animation = Animation(start: int, panel: nat, item: nat, target: int, duration: nat, ease: string)

  /** The `left` of every item, panel by panel. */
  type Lefts = seq<seq<int>>

  /** Horizontal distance between neighbouring items: the item width plus its padding on both sides. */
  function Pitch(c: Config): int {
    c.width + 2 * c.padding
  }

  /** Resting `left` of item `i` of the panel on screen. */
  function RestingLeft(c: Config, i: nat): int {
    i * Pitch(c)
  }

  /** Resting `left` of every item of an `n`-item panel. */
  function Resting(c: Config, n: nat): seq<int> {
    seq(n, i requires 0 <= i < n => RestingLeft(c, i))
  }

  /** Width given to a panel of `n` items: it ends exactly where the slot of its last item ends. */
  function PanelWidth(c: Config, n: nat): (r: int)
    ensures n > 0 ==> r == RestingLeft(c, n - 1) + Pitch(c)
    ensures n == 0 ==> r == 0
  {
    n * Pitch(c)
  }

  lemma DefaultPanelWidth(n: nat)
    ensures Pitch(Defaults) == 160
    ensures PanelWidth(Defaults, n) == 160 * n
  {
  }

  /** An item is parked off screen on one side or the other. */
  predicate OffScreen(c: Config, x: int) {
    x == c.offset || x == -c.offset
  }

  /** Initial `left` of the `n` items of panel p: side by side from 0 for panel 0, parked
      at `offset` for every other panel. */
  function InitialPanel(c: Config, p: nat, n: nat): (r: seq<int>)
    ensures |r| == n
    ensures p == 0 ==> r == Resting(c, n)
    ensures p != 0 ==> forall i :: 0 <= i < n ==> r[i] == c.offset
  {
    seq(n, i requires 0 <= i < n => if p == 0 then RestingLeft(c, i) else c.offset)
  }

  /** Items of panel 0 side by side from 0, every other item parked at `offset`. */
  function InitialLefts(c: Config, counts: seq<nat>): (r: Lefts)
    ensures |r| == |counts|
    ensures forall p :: 0 <= p < |r| ==> |r[p]| == counts[p]
    ensures |counts| > 0 ==> AtRest(c, r, 0)
    ensures forall p, i :: 1 <= p < |r| && 0 <= i < |r[p]| ==> r[p][i] == c.offset
  {
    seq(|counts|, p requires 0 <= p < |counts| => InitialPanel(c, p, counts[p]))
  }

  /** The carousel at rest: the items of panel `active` in their slots, every other item off screen. */
  ghost predicate AtRest(c: Config, lefts: Lefts, active: nat) {
    && active < |lefts|
    && (forall i :: 0 <= i < |lefts[active]| ==> lefts[active][i] == RestingLeft(c, i))
    && (forall p, i :: 0 <= p < |lefts| && p != active && 0 <= i < |lefts[p]| ==> OffScreen(c, lefts[p][i]))
  }

  /** JavaScript's `currentOrder < clickedOrder`, where an undefined order makes it false. */
  function Forward(current: Option<nat>, clicked: Option<nat>): bool {
    match (current, clicked)
    case (Some(a), Some(b)) => a < b
    case _ => false
  }

  /** Where outgoing items go and incoming items start: left of the view when moving forward. */
  function OffsetSide(c: Config, forward: bool): int {
    if forward then -1 * c.offset else c.offset
  }

  lemma DirectionSign(c: Config, current: Option<nat>, clicked: Option<nat>)
    requires c.offset > 0
    ensures OffsetSide(c, Forward(current, clicked)) < 0
        <==> current.Some? && clicked.Some? && current.value < clicked.value
    ensures OffsetSide(c, Forward(current, clicked)) > 0
        <==> current.None? || clicked.None? || current.value >= clicked.value
    ensures OffScreen(c, OffsetSide(c, Forward(current, clicked)))
  {
  }

  /** Timer delay of item `index` of an `n`-item list. */
  function Stagger(c: Config, forward: bool, n: nat, index: nat): int {
    if forward then index * c.delay else (n - index) * c.delay
  }

  lemma {:induction false} MulMonotone(a: nat, b: nat, d: nat)
    requires a <= b
    ensures a * d <= b * d
  {
    if a < b {
      MulMonotone(a, b - 1, d);
      assert b * d == (b - 1) * d + d;
    }
  }

  /** Every stagger lies in [0, n*delay]; going forward the last item still leaves one
      `delay` before n*delay, going backward no item starts before one `delay`. */
  lemma StaggerBounds(c: Config, forward: bool, n: nat, index: nat)
    requires index < n
    ensures 0 <= Stagger(c, forward, n, index) <= n * c.delay
    ensures forward ==> Stagger(c, forward, n, index) + c.delay <= n * c.delay
    ensures !forward ==> c.delay <= Stagger(c, forward, n, index)
  {
    if forward {
      MulMonotone(index + 1, n, c.delay);
    } else {
      MulMonotone(1, n - index, c.delay);
      MulMonotone(n - index, n, c.delay);
    }
  }

  /** When the reveal timer fires, counted from the click: after the outgoing duration
      and one `delay` per outgoing item. */
  function RevealTime(c: Config, outCount: nat): int {
    c.animateDurationIn + c.delay * outCount
  }

  /** Moves scheduled by the click for the `n` items of the outgoing panel `p`. */
  function OutgoingPlan(c: Config, p: nat, n: nat, forward: bool, side: int): (r: seq<Animation>)
    ensures Sweeps(r, p, n)
  {
    seq(n, i requires 0 <= i < n => Animation(Stagger(c, forward, n, i), p, i, side, c.animateDurationIn, c.easeIn))
  }

  /** Moves scheduled by the reveal step (at time `at`) for the `n` items of the incoming panel `p`. */
  function IncomingPlan(c: Config, p: nat, n: nat, forward: bool, at: int): (r: seq<Animation>)
    ensures Sweeps(r, p, n)
  {
    seq(n, i requires 0 <= i < n =>
      Animation(at + Stagger(c, forward, n, i), p, i, RestingLeft(c, i), c.animateDurationOut, c.easeOut))
  }

  /** Every outgoing move has finished by the time the reveal timer fires. */
  lemma OutgoingEndsByReveal(c: Config, p: nat, n: nat, forward: bool, side: int)
    ensures forall a :: a in OutgoingPlan(c, p, n, forward, side) ==>
      a.start >= 0 && a.start + a.duration <= RevealTime(c, n)
  {
    var plan := OutgoingPlan(c, p, n, forward, side);
    forall a | a in plan
      ensures a.start >= 0 && a.start + a.duration <= RevealTime(c, n)
    {
      var i :| 0 <= i < n && plan[i] == a;
      StaggerBounds(c, forward, n, i);
    }
  }

  /** No incoming move starts before every outgoing move has finished. */
  lemma NoOverlap(c: Config, from: nat, nOut: nat, to: nat, nIn: nat, forward: bool, side: int)
    ensures forall o, a ::
      o in OutgoingPlan(c, from, nOut, forward, side) &&
      a in IncomingPlan(c, to, nIn, forward, RevealTime(c, nOut)) ==>
      o.start + o.duration <= a.start
  {
    OutgoingEndsByReveal(c, from, nOut, forward, side);
    var incoming := IncomingPlan(c, to, nIn, forward, RevealTime(c, nOut));
    forall a | a in incoming
      ensures RevealTime(c, nOut) <= a.start
    {
      var i :| 0 <= i < nIn && incoming[i] == a;
      StaggerBounds(c, forward, nIn, i);
    }
  }

  /** The caret's `left` under a link `linkWidth` px wide: half the link's width less
      the hard-coded 10 px. */
  function CaretLeft(linkWidth: real): real {
    linkWidth / 2.0 - CaretShift
  }

  // ---------------------------------------------------------------------------
  // Completing scheduled moves

  /** A plan that moves item i of panel p, for each i < n in order. */
  ghost predicate Sweeps(plan: seq<Animation>, p: nat, n: nat) {
    |plan| == n && forall i :: 0 <= i < n ==> plan[i].panel == p && plan[i].item == i
  }

  /** The end state of one move: its item now sits at its target. */
  function Apply(lefts: Lefts, a: Animation): (r: Lefts)
    ensures |r| == |lefts|
    ensures forall p :: 0 <= p < |r| ==> |r[p]| == |lefts[p]|
  {
    if a.panel < |lefts| && a.item < |lefts[a.panel]| then
      lefts[a.panel := lefts[a.panel][a.item := a.target]]
    else
      lefts
  }

  /** One move changes the position of its own item, to its target, and of no other. */
  lemma ApplyMoves(lefts: Lefts, a: Animation, p: nat, i: nat)
    requires p < |lefts| && i < |lefts[p]|
    ensures Apply(lefts, a)[p][i] == if p == a.panel && i == a.item then a.target else lefts[p][i]
  {
  }

  /** The end state of a log of moves, completed in the order they were scheduled. */
  function ApplyAll(lefts: Lefts, log: seq<Animation>): (r: Lefts)
    ensures |r| == |lefts|
    ensures forall p :: 0 <= p < |r| ==> |r[p]| == |lefts[p]|
  {
    if log == [] then lefts else Apply(ApplyAll(lefts, log[..|log| - 1]), log[|log| - 1])
  }

  /** An item ends at the target of the last move scheduled for it. */
  lemma {:induction false} LastMoveWins(lefts: Lefts, log: seq<Animation>, j: nat)
    requires j < |log| && log[j].panel < |lefts| && log[j].item < |lefts[log[j].panel]|
    requires forall k :: j < k < |log| ==> !(log[k].panel == log[j].panel && log[k].item == log[j].item)
    ensures ApplyAll(lefts, log)[log[j].panel][log[j].item] == log[j].target
  {
    var prefix := log[..|log| - 1];
    if j < |log| - 1 {
      assert prefix[j] == log[j];
      forall k | j < k < |prefix|
        ensures !(prefix[k].panel == log[j].panel && prefix[k].item == log[j].item)
      {
        assert prefix[k] == log[k];
      }
      LastMoveWins(lefts, prefix, j);
    }
    ApplyMoves(ApplyAll(lefts, prefix), log[|log| - 1], log[j].panel, log[j].item);
  }

  /** An item no move names stays where it was. */
  lemma {:induction false} Untouched(lefts: Lefts, log: seq<Animation>, p: nat, i: nat)
    requires p < |lefts| && i < |lefts[p]|
    requires forall k :: 0 <= k < |log| ==> !(log[k].panel == p && log[k].item == i)
    ensures ApplyAll(lefts, log)[p][i] == lefts[p][i]
  {
    if log != [] {
      var prefix := log[..|log| - 1];
      forall k | 0 <= k < |prefix|
        ensures !(prefix[k].panel == p && prefix[k].item == i)
      {
        assert prefix[k] == log[k];
      }
      Untouched(lefts, prefix, p, i);
      ApplyMoves(ApplyAll(lefts, prefix), log[|log| - 1], p, i);
    }
  }

  lemma {:induction false} ApplyAllConcat(lefts: Lefts, a: seq<Animation>, b: seq<Animation>)
    ensures ApplyAll(lefts, a + b) == ApplyAll(ApplyAll(lefts, a), b)
  {
    if b == [] {
      assert a + b == a;
    } else {
      assert (a + b)[..|a + b| - 1] == a + b[..|b| - 1];
      ApplyAllConcat(lefts, a, b[..|b| - 1]);
    }
  }

  /** Panel p with its first m items moved to their targets in `plan`. */
  function SweptPrefix(lefts: Lefts, plan: seq<Animation>, p: nat, m: nat): Lefts
    requires p < |lefts| && |plan| == |lefts[p]| && m <= |plan|
  {
    lefts[p := seq(|plan|, i requires 0 <= i < |plan| => if i < m then plan[i].target else lefts[p][i])]
  }

  lemma {:induction false} ApplySweepPrefix(lefts: Lefts, plan: seq<Animation>, p: nat, m: nat)
    requires p < |lefts| && Sweeps(plan, p, |lefts[p]|) && m <= |plan|
    ensures ApplyAll(lefts, plan[..m]) == SweptPrefix(lefts, plan, p, m)
  {
    if m == 0 {
      assert plan[..0] == [];
      assert SweptPrefix(lefts, plan, p, 0)[p] == lefts[p];
    } else {
      var prefix := plan[..m];
      assert prefix[..|prefix| - 1] == plan[..m - 1];
      assert prefix[|prefix| - 1] == plan[m - 1];
      ApplySweepPrefix(lefts, plan, p, m - 1);
      var before := SweptPrefix(lefts, plan, p, m - 1);
      var after := SweptPrefix(lefts, plan, p, m);
      assert ApplyAll(lefts, prefix) == Apply(before, plan[m - 1]);
      assert before[p][m - 1 := plan[m - 1].target] == after[p];
      assert before[p := after[p]] == after;
    }
  }

  /** Completing a sweep over every item of panel p puts each item at its target and touches no other panel. */
  lemma ApplySweep(lefts: Lefts, plan: seq<Animation>, p: nat)
    requires p < |lefts| && Sweeps(plan, p, |lefts[p]|)
    ensures ApplyAll(lefts, plan) == lefts[p := seq(|plan|, i requires 0 <= i < |plan| => plan[i].target)]
  {
    ApplySweepPrefix(lefts, plan, p, |plan|);
    assert plan[..|plan|] == plan;
    assert SweptPrefix(lefts, plan, p, |plan|)[p] == seq(|plan|, i requires 0 <= i < |plan| => plan[i].target);
  }

  /** Every item of panel p snapped to `x`. */
  function Fill(lefts: Lefts, p: nat, x: int): Lefts
    requires p < |lefts|
  {
    lefts[p := seq(|lefts[p]|, i => x)]
  }

  /** Where a transition from panel `from` to panel `to` leaves the items. */
  function Landed(c: Config, lefts: Lefts, from: nat, to: nat, side: int): Lefts
    requires from < |lefts| && to < |lefts|
  {
    Fill(lefts, from, side)[to := Resting(c, |lefts[to]|)]
  }

  /** The reveal step snaps the incoming items to `side`; once the outgoing and incoming moves
      complete, the outgoing items sit at `side`, the incoming ones in their slots, and every
      other panel is as it was. */
  lemma TransitionLands(c: Config, lefts: Lefts, from: nat, to: nat, forward: bool, side: int)
    requires from < |lefts| && to < |lefts| && from != to
    ensures ApplyAll(Fill(lefts, to, side),
                     OutgoingPlan(c, from, |lefts[from]|, forward, side) +
                     IncomingPlan(c, to, |lefts[to]|, forward, RevealTime(c, |lefts[from]|)))
         == Landed(c, lefts, from, to, side)
  {
    var snapped := Fill(lefts, to, side);
    var outgoing := OutgoingPlan(c, from, |lefts[from]|, forward, side);
    var incoming := IncomingPlan(c, to, |lefts[to]|, forward, RevealTime(c, |lefts[from]|));
    ApplyAllConcat(snapped, outgoing, incoming);
    ApplySweep(snapped, outgoing, from);
    var middle := ApplyAll(snapped, outgoing);
    assert seq(|outgoing|, i requires 0 <= i < |outgoing| => outgoing[i].target) == seq(|lefts[from]|, i => side);
    assert middle == snapped[from := seq(|lefts[from]|, i => side)];
    ApplySweep(middle, incoming, to);
    assert seq(|incoming|, i requires 0 <= i < |incoming| => incoming[i].target) == Resting(c, |lefts[to]|);
    assert ApplyAll(middle, incoming) == middle[to := Resting(c, |lefts[to]|)];
  }

  /** A completed transition leaves the carousel at rest again, on the clicked panel. */
  lemma LandedAtRest(c: Config, lefts: Lefts, from: nat, to: nat, forward: bool)
    requires AtRest(c, lefts, from) && to < |lefts| && from != to
    ensures AtRest(c, Landed(c, lefts, from, to, OffsetSide(c, forward)), to)
  {
  }

  /** Three panels of 2, 3 and 1 items with the default options, and a click on the second
      link: where init puts the items, the moves the click and the reveal timer schedule, and
      where the items are once those moves complete. */
  lemma DefaultTransition()
    ensures InitialLefts(Defaults, [2, 3, 1]) == [[0, 160], [3000, 3000, 3000], [3000]]
    ensures Forward(Some(0), Some(1)) && OffsetSide(Defaults, true) == -3000
    ensures RevealTime(Defaults, 2) == 300
    ensures OutgoingPlan(Defaults, 0, 2, true, -3000) == [
      Animation(0, 0, 0, -3000, 200, "easeInQuint"),
      Animation(50, 0, 1, -3000, 200, "easeInQuint")]
    ensures IncomingPlan(Defaults, 1, 3, true, 300) == [
      Animation(300, 1, 0, 0, 800, "easeInOutElastic"),
      Animation(350, 1, 1, 160, 800, "easeInOutElastic"),
      Animation(400, 1, 2, 320, 800, "easeInOutElastic")]
    ensures Landed(Defaults, [[0, 160], [3000, 3000, 3000], [3000]], 0, 1, -3000)
      == [[-3000, -3000], [0, 160, 320], [3000]]
  {
    assert InitialPanel(Defaults, 0, 2) == [0, 160];
    assert InitialPanel(Defaults, 1, 3) == [3000, 3000, 3000];
    assert InitialPanel(Defaults, 2, 1) == [3000];
    assert Resting(Defaults, 3) == [0, 160, 320];
    assert seq(2, i => -3000) == [-3000, -3000];
  }
}
