/** The state of one mini gallery: the `left` style of every item, the width,
    visibility and `mini-gallery-active` flag of every panel, the `active` flag of
    every navigation link, and the timers the click handler has armed, kept as
    data (a log of scheduled moves and the pending reveal step). */
module Carousel {
  import opened Layout

  /** The "animate in" timer a click arms: at `at` ms after the click it activates
      panel `to`, hides `from`, shows `to` and slides the items of `to` in. */
  datatype Reveal = Reveal(at: int, from: nat, to: nat, forward: bool, side: int)

  class Gallery {
    const cfg: Config
    /** Number of items (li) of each panel (ul). Link k refers to panel k. */
    const counts: seq<nat>
    /** lefts[p][i] is the `left` style of item i of panel p. */
    var lefts: Lefts
    /** The `width` style of each panel. */
    const widths: array<int>
    /** Panel p is shown. */
    const visible: array<bool>
    /** Panel p carries the class mini-gallery-active. */
    const panelActive: array<bool>
    /** Link k carries the class active. */
    const linkActive: array<bool>
    /** Moves scheduled and not yet completed, in the order they were scheduled. */
    var scheduled: seq<Animation>
    /** The reveal timer, while it has not fired. */
    var pending: Option<Reveal>
    /** The active link. */
    ghost var link: nat

    ghost function Repr(): set<object> {
      {widths as object, visible as object, panelActive as object, linkActive as object}
    }

    /** Whether panel p is shown while `shown` is the panel last brought on screen. The
        handler hides and shows a panel through the parent of its items, so an empty panel
        keeps the visibility init gave it: shown for panel 0, hidden for any other. */
    ghost function Shown(p: nat, shown: nat): bool
      requires p < |counts|
    {
      if counts[p] == 0 then p == 0 else p == shown
    }

    /** One width and one flag per panel and per link. */
    ghost predicate Shape() {
      && 0 < |counts|
      && widths.Length == |counts| && visible.Length == |counts|
      && panelActive.Length == |counts| && linkActive.Length == |counts|
      && visible != panelActive && visible != linkActive && panelActive != linkActive
    }

    /** Every panel is as wide as its items. */
    ghost predicate WidthsSet()
      reads widths
      requires Shape()
    {
      forall p :: 0 <= p < |counts| ==> widths[p] == PanelWidth(cfg, counts[p])
    }

    /** Exactly one link, `link`, is active; while the reveal timer is pending no panel is
        active and the old panel is still the one shown, otherwise the panel of `link` is
        the one active and shown. */
    ghost predicate Flags()
      reads this, visible, panelActive, linkActive
      requires Shape()
    {
      && link < |counts|
      && (forall k :: 0 <= k < |counts| ==> linkActive[k] == (k == link))
      && match pending
         case None =>
           forall p :: 0 <= p < |counts| ==> panelActive[p] == (p == link) && visible[p] == Shown(p, link)
         case Some(r) =>
           && r.to == link && r.from < |counts| && r.from != r.to
           && forall p :: 0 <= p < |counts| ==> !panelActive[p] && visible[p] == Shown(p, r.from)
    }

    /** One position per item of every panel. */
    ghost predicate Positions()
      reads this
    {
      && |lefts| == |counts|
      && forall p :: 0 <= p < |counts| ==> |lefts[p]| == counts[p]
    }

    /** Every scheduled move is of an existing item. */
    ghost predicate LogInRange()
      reads this
    {
      forall a :: a in scheduled ==> a.panel < |counts| && a.item < counts[a.panel]
    }

    ghost predicate Valid()
      reads this, Repr()
    {
      Shape() && Positions() && WidthsSet() && Flags() && LogInRange()
    }

    /** No transition in flight: no timer pending, no move outstanding, the active
        panel's items in their slots and every other item off screen. */
    ghost predicate Settled()
      reads this, Repr()
    {
      Valid() && pending.None? && scheduled == [] && AtRest(cfg, lefts, link)
    }

    /** init: lay out the panels and activate the first panel and the first link. */
    constructor (cfg: Config, counts: seq<nat>)
      requires 0 < |counts|
      ensures Settled() && fresh(Repr())
      ensures this.cfg == cfg && this.counts == counts
      ensures link == 0 && panelActive[0] && visible[0]
      ensures lefts == InitialLefts(cfg, counts)
      ensures forall p :: 0 <= p < |counts| ==> widths[p] == PanelWidth(cfg, counts[p])
    {
      var ls, w := LayOutPanels(cfg, counts);
      this.cfg := cfg;
      this.counts := counts;
      lefts := ls;
      widths := w;
      // The first list is active and shown, every other list hidden; the first link is active.
      visible := new bool[|counts|](p => p == 0);
      panelActive := new bool[|counts|](p => p == 0);
      linkActive := new bool[|counts|](k => k == 0);
      scheduled := [];
      pending := None;
      link := 0;
    }

    /** The loop of init over the lists: each list gets its width, and its items are placed
        side by side (first list) or off screen. */
    static method LayOutPanels(cfg: Config, counts: seq<nat>) returns (ls: Lefts, w: array<int>)
      ensures fresh(w) && w.Length == |counts|
      ensures ls == InitialLefts(cfg, counts)
      ensures forall p :: 0 <= p < |counts| ==> w[p] == PanelWidth(cfg, counts[p])
    {
      w := new int[|counts|];
      ls := [];
      for p := 0 to |counts|
        invariant |ls| == p
        invariant forall q :: 0 <= q < p ==> ls[q] == InitialPanel(cfg, q, counts[q])
        invariant forall q :: 0 <= q < p ==> w[q] == PanelWidth(cfg, counts[q])
      {
        w[p] := PanelWidth(cfg, counts[p]);
        var items := PlaceItems(cfg, p, counts[p]);
        ls := ls + [items];
      }
    }

    /** Positions the n items of panel p as init does. */
    static method PlaceItems(cfg: Config, p: nat, n: nat) returns (items: seq<int>)
      ensures items == InitialPanel(cfg, p, n)
    {
      items := [];
      for i := 0 to n
        invariant |items| == i
        invariant forall j :: 0 <= j < i ==> items[j] == InitialPanel(cfg, p, n)[j]
      {
        if p == 0 {
          items := items + [RestingLeft(cfg, i)];
        } else {
          items := items + [cfg.offset];
        }
      }
    }

    /** The panels carrying mini-gallery-active, as jQuery's `.data('order')` reads
        them: the first such panel, if any. */
    method FindActive() returns (r: Option<nat>)
      ensures r.Some? ==> r.value < panelActive.Length && panelActive[r.value]
      ensures r.Some? ==> forall q :: 0 <= q < r.value ==> !panelActive[q]
      ensures r.None? ==> forall q :: 0 <= q < panelActive.Length ==> !panelActive[q]
    {
      var p := 0;
      while p < panelActive.Length
        invariant p <= panelActive.Length
        invariant forall q :: 0 <= q < p ==> !panelActive[q]
      {
        if panelActive[p] {
          return Some(p);
        }
        p := p + 1;
      }
      return None;
    }

    /** The click handler of link k. A click that starts a transition is taken only while no
        reveal timer is pending; moves still running are left in the log. */
    method Click(k: nat)
      requires Valid() && k < |counts|
      requires !linkActive[k] ==> pending.None?
      modifies this, linkActive, panelActive
      ensures Valid()
      ensures lefts == old(lefts) && unchanged(visible)
      ensures old(linkActive[k]) ==> unchanged(this) && unchanged(linkActive, panelActive)
      ensures !old(linkActive[k]) ==>
        var from := old(link);
        var forward := Forward(Some(from), Some(k));
        var side := OffsetSide(cfg, forward);
        && link == k
        && (forall j :: 0 <= j < |counts| ==> linkActive[j] == (j == k))
        && (forall p :: 0 <= p < |counts| ==> !panelActive[p])
        && scheduled == old(scheduled) + OutgoingPlan(cfg, from, counts[from], forward, side)
        && pending == Some(Reveal(RevealTime(cfg, counts[from]), from, k, forward, side))
    {
      if linkActive[k] {
        return;
      }
      ghost var previous := link;
      assert forall p :: 0 <= p < |counts| ==> panelActive[p] == (p == previous);
      // Only the clicked link is active.
      ClearAll(linkActive);
      linkActive[k] := true;
      link := k;

      var current := FindActive();
      assert panelActive[previous];
      var forward := Forward(current, Some(k));
      var side := OffsetSide(cfg, forward);
      var from := current.value;
      ClearAll(panelActive);

      // Animate out: one timer per outgoing item.
      var n := counts[from];
      var outgoing := ScheduleOut(cfg, from, n, forward, side);
      scheduled := scheduled + outgoing;

      // Animate in, once the outgoing moves are over.
      pending := Some(Reveal(RevealTime(cfg, n), from, k, forward, side));
    }

    /** The reveal timer fires: the clicked panel becomes active, the old one is hidden and
        the new one shown, and each incoming item snaps to `side` and is scheduled to slide
        to its slot. */
    method FireReveal()
      requires Valid() && pending.Some?
      modifies this, visible, panelActive
      ensures Valid() && pending.None? && link == old(link) && unchanged(linkActive)
      ensures var r := old(pending.value);
        && (forall p :: 0 <= p < |counts| ==> panelActive[p] == (p == r.to))
        && (counts[r.from] > 0 ==> !visible[r.from])
        && (counts[r.to] > 0 ==> visible[r.to])
        && lefts == Fill(old(lefts), r.to, r.side)
        && scheduled == old(scheduled) + IncomingPlan(cfg, r.to, counts[r.to], r.forward, r.at)
    {
      var r := pending.value;
      panelActive[r.to] := true;
      if counts[r.from] > 0 {
        visible[r.from] := false;
      }
      if counts[r.to] > 0 {
        visible[r.to] := true;
      }
      var snapped, incoming := ScheduleIn(cfg, lefts[r.to], r.to, r.forward, r.side, r.at);
      lefts := lefts[r.to := snapped];
      scheduled, pending := scheduled + incoming, None;
    }

    /** Removes a class from every element of a selection. */
    static method ClearAll(flags: array<bool>)
      modifies flags
      ensures forall i :: 0 <= i < flags.Length ==> !flags[i]
    {
      for i := 0 to flags.Length
        invariant forall j :: 0 <= j < i ==> !flags[j]
      {
        flags[i] := false;
      }
    }

    /** The loop over the outgoing items: one timer per item, staggered, moving it to `side`. */
    static method ScheduleOut(cfg: Config, from: nat, n: nat, forward: bool, side: int) returns (timers: seq<Animation>)
      ensures timers == OutgoingPlan(cfg, from, n, forward, side)
    {
      timers := [];
      for i := 0 to n
        invariant |timers| == i
        invariant forall j :: 0 <= j < i ==> timers[j] == OutgoingPlan(cfg, from, n, forward, side)[j]
      {
        timers := timers + [Animation(Stagger(cfg, forward, n, i), from, i, side, cfg.animateDurationIn, cfg.easeIn)];
      }
    }

    /** The loop over the incoming items: each item snaps to `side` and gets a timer, staggered
        from `at`, to slide to its slot. */
    static method ScheduleIn(cfg: Config, items: seq<int>, to: nat, forward: bool, side: int, at: int)
      returns (snapped: seq<int>, timers: seq<Animation>)
      ensures snapped == seq(|items|, i => side)
      ensures timers == IncomingPlan(cfg, to, |items|, forward, at)
    {
      var n := |items|;
      snapped, timers := items, [];
      for i := 0 to n
        invariant |snapped| == n && |timers| == i
        invariant forall j :: 0 <= j < i ==> snapped[j] == side
        invariant forall j :: 0 <= j < i ==> timers[j] == IncomingPlan(cfg, to, n, forward, at)[j]
      {
        snapped := snapped[i := side];
        timers := timers + [Animation(at + Stagger(cfg, forward, n, i), to, i, RestingLeft(cfg, i), cfg.animateDurationOut, cfg.easeOut)];
      }
    }

    /** Every scheduled move runs to its end: each item moved ends at the target of the
        last move scheduled for it. */
    method Complete()
      requires Valid()
      modifies this`lefts, this`scheduled
      ensures Valid() && scheduled == []
      ensures lefts == ApplyAll(old(lefts), old(scheduled))
    {
      var log := scheduled;
      ghost var start := lefts;
      for j := 0 to |log|
        invariant lefts == ApplyAll(start, log[..j])
      {
        lefts := Apply(lefts, log[j]);
        assert log[..j + 1][..j] == log[..j];
      }
      assert log[..|log|] == log;
      scheduled := [];
    }

    /** A click on link k followed, when it starts a transition, by the reveal timer and
        the completion of every move it schedules. */
    method Navigate(k: nat)
      requires Settled() && k < |counts|
      modifies this, Repr()
      ensures Settled() && link == k
      ensures k == old(link) ==> lefts == old(lefts)
      ensures k != old(link) ==>
        lefts == Landed(cfg, old(lefts), old(link), k, OffsetSide(cfg, Forward(Some(old(link)), Some(k))))
    {
      var wasActive := linkActive[k];
      ghost var from := link;
      ghost var start := lefts;
      Click(k);
      if !wasActive {
        var forward := Forward(Some(from), Some(k));
        assert scheduled == OutgoingPlan(cfg, from, counts[from], forward, OffsetSide(cfg, forward));
        FireReveal();
        Complete();
        TransitionLands(cfg, start, from, k, forward, OffsetSide(cfg, forward));
        LandedAtRest(cfg, start, from, k, forward);
      }
    }
  }
}
