/** Menu navigation: the dispatcher that turns menu button presses into
    navigation events, repeats held directions on a timer, and hands every
    event to the navigation scheme on top of a stack.

    Time is counted in whole milliseconds. */
module Navigation {
  import opened Wrappers

  /** Menu actions. Only the four directions are treated specially by the
      dispatcher; every other action is told apart by its code. */
  datatype MenuAction = Up | Down | Left | Right | Other(code: nat)

  /** A player, by identity: the dispatcher only compares players. */
  type PlayerId = nat

  /** A navigation scheme, by identity: what a scheme does with an action is
      its own business. */
  type SchemeId = nat

  /** One menu input: which action, from which player, and whether it is a
      timed repeat of an input that is being held. */
  datatype NavigationContext = NavigationContext(action: MenuAction, player: PlayerId, isRepeat: bool)
  {
    /** Same action from the same player; the repeat flag is not compared:
        two inputs are the same exactly when they are equal once both are
        marked as repeats. */
    predicate IsSameAs(other: NavigationContext): (r: bool)
      ensures r <==> NavigationContext(action, player, true) == other.(isRepeat := true)
    {
      other.action == action && other.player == player
    }

    /** The same input, marked as a repeat. */
    function AsRepeat(): (r: NavigationContext)
      ensures r.isRepeat
      ensures r.action == action && r.player == player
      ensures r.IsSameAs(this) && IsSameAs(r)
    {
      NavigationContext(action, player, true)
    }
  }

  /** IsSameAs is an equivalence that ignores the repeat flag. */
  lemma SameAsIsEquivalence(a: NavigationContext, b: NavigationContext, c: NavigationContext)
    ensures a.IsSameAs(a)
    ensures a.IsSameAs(b) == b.IsSameAs(a)
    ensures a.IsSameAs(b) && b.IsSameAs(c) ==> a.IsSameAs(c)
    ensures a.IsSameAs(b) == a.IsSameAs(b.(isRepeat := !b.isRepeat))
  {
  }

  /** Interval between two repeats of a held direction. */
  const InputRepeatTime: int := 35

  /** Delay before a held direction starts repeating. */
  const InputRepeatCooldown: int := 500

  /** The actions that repeat while held. */
  predicate IsRepeatAction(a: MenuAction) {
    a == Up || a == Down || a == Left || a == Right
  }

  /** A held input and the time left until its next repeat. */
  datatype HoldContext = HoldContext(context: NavigationContext, timer: int)

  /** A freshly pressed input waits the cooldown before its first repeat. */
  function NewHold(ctx: NavigationContext): HoldContext {
    HoldContext(ctx, InputRepeatCooldown)
  }

  /** Some held entry is the same input as `ctx`. */
  predicate Holds(held: seq<HoldContext>, ctx: NavigationContext) {
    exists i :: 0 <= i < |held| && held[i].context.IsSameAs(ctx)
  }

  /** No input is held twice. */
  predicate NoDuplicateHolds(held: seq<HoldContext>)
    decreases |held|
  {
    |held| == 0 || (!Holds(held[1..], held[0].context) && NoDuplicateHolds(held[1..]))
  }

  /** No two entries, at any positions, are the same input. */
  predicate PairwiseDistinct(held: seq<HoldContext>) {
    forall i, j :: 0 <= i < j < |held| ==> !held[i].context.IsSameAs(held[j].context)
  }

  /** The invariant of the held list: no duplicates, only directions, and
      every timer still running. */
  predicate WellFormed(held: seq<HoldContext>) {
    && NoDuplicateHolds(held)
    && forall h :: h in held ==> IsRepeatAction(h.context.action) && h.timer > 0
  }

  lemma HoldsCons(held: seq<HoldContext>, ctx: NavigationContext)
    requires |held| > 0
    ensures Holds(held, ctx) <==> held[0].context.IsSameAs(ctx) || Holds(held[1..], ctx)
  {
    if Holds(held, ctx) && !held[0].context.IsSameAs(ctx) {
      var i :| 0 <= i < |held| && held[i].context.IsSameAs(ctx);
      assert held[1..][i - 1] == held[i];
    }
    if Holds(held[1..], ctx) {
      var i :| 0 <= i < |held| - 1 && held[1..][i].context.IsSameAs(ctx);
      assert held[i + 1] == held[1..][i];
    }
  }

  /** The recursive no-duplicates definition says the same as the pairwise one. */
  lemma {:induction false} NoDuplicateHoldsIsPairwise(held: seq<HoldContext>)
    ensures NoDuplicateHolds(held) <==> PairwiseDistinct(held)
    decreases |held|
  {
    if |held| > 0 {
      var t := held[1..];
      NoDuplicateHoldsIsPairwise(t);
      if PairwiseDistinct(held) {
        forall i, j | 0 <= i < j < |t|
          ensures !t[i].context.IsSameAs(t[j].context)
        {
          assert t[i] == held[i + 1] && t[j] == held[j + 1];
        }
        forall i | 0 <= i < |t|
          ensures !t[i].context.IsSameAs(held[0].context)
        {
          assert t[i] == held[i + 1];
        }
      }
      if NoDuplicateHolds(held) {
        forall i, j | 0 <= i < j < |held|
          ensures !held[i].context.IsSameAs(held[j].context)
        {
          assert t[j - 1] == held[j];
          if i > 0 {
            assert t[i - 1] == held[i];
          }
        }
      }
    }
  }

  /** Releasing an input drops every entry that is the same input and keeps
      the others in order. */
  function Release(held: seq<HoldContext>, ctx: NavigationContext): (r: seq<HoldContext>)
    ensures |r| <= |held|
    ensures forall i :: 0 <= i < |r| ==> r[i] in held && !r[i].context.IsSameAs(ctx)
    decreases |held|
  {
    if |held| == 0 then []
    else (if held[0].context.IsSameAs(ctx) then [] else [held[0]]) + Release(held[1..], ctx)
  }

  /** What a release keeps: exactly the entries that are not the released input. */
  lemma {:induction false} ReleaseMembers(held: seq<HoldContext>, ctx: NavigationContext)
    ensures forall h :: h in Release(held, ctx) <==> h in held && !h.context.IsSameAs(ctx)
    decreases |held|
  {
    if |held| > 0 {
      ReleaseMembers(held[1..], ctx);
      assert held == [held[0]] + held[1..];
    }
  }

  /** A release filters each part of the list on its own, so the order of the
      kept entries is the order they had. */
  lemma {:induction false} ReleaseDistributes(a: seq<HoldContext>, b: seq<HoldContext>, ctx: NavigationContext)
    ensures Release(a + b, ctx) == Release(a, ctx) + Release(b, ctx)
    decreases |a|
  {
    if |a| == 0 {
      assert a + b == b;
    } else {
      assert (a + b)[0] == a[0] && (a + b)[1..] == a[1..] + b;
      ReleaseDistributes(a[1..], b, ctx);
      var first := if a[0].context.IsSameAs(ctx) then [] else [a[0]];
      assert Release(a + b, ctx) == first + Release(a[1..] + b, ctx);
      assert Release(a, ctx) == first + Release(a[1..], ctx);
    }
  }

  /** Releasing an input that is not held changes nothing. */
  lemma {:induction false} ReleaseAbsent(held: seq<HoldContext>, ctx: NavigationContext)
    requires !Holds(held, ctx)
    ensures Release(held, ctx) == held
    decreases |held|
  {
    if |held| > 0 {
      HoldsCons(held, ctx);
      ReleaseAbsent(held[1..], ctx);
    }
  }

  /** With no duplicates, a release removes one entry if the input was held
      and none otherwise. */
  lemma {:induction false} ReleaseCount(held: seq<HoldContext>, ctx: NavigationContext)
    requires NoDuplicateHolds(held)
    ensures |Release(held, ctx)| == if Holds(held, ctx) then |held| - 1 else |held|
    decreases |held|
  {
    if |held| > 0 {
      var t := held[1..];
      HoldsCons(held, ctx);
      if held[0].context.IsSameAs(ctx) {
        forall i | 0 <= i < |t|
          ensures !t[i].context.IsSameAs(ctx)
        {
          assert !t[i].context.IsSameAs(held[0].context);
        }
        ReleaseAbsent(t, ctx);
      } else {
        ReleaseCount(t, ctx);
      }
    }
  }

  lemma {:induction false} ReleaseNoDuplicates(held: seq<HoldContext>, ctx: NavigationContext)
    requires NoDuplicateHolds(held)
    ensures NoDuplicateHolds(Release(held, ctx))
    decreases |held|
  {
    if |held| > 0 {
      var t := held[1..];
      var rt := Release(t, ctx);
      ReleaseNoDuplicates(t, ctx);
      if !held[0].context.IsSameAs(ctx) {
        ReleaseMembers(t, ctx);
        forall i | 0 <= i < |rt|
          ensures !rt[i].context.IsSameAs(held[0].context)
        {
          assert rt[i] in rt;
          var j :| 0 <= j < |t| && t[j] == rt[i];
        }
        assert Release(held, ctx)[1..] == rt;
      } else {
        assert Release(held, ctx) == [] + rt == rt;
      }
    }
  }

  /** A release keeps the held list well formed, and afterwards the released
      input is no longer held. */
  lemma ReleaseKeepsWellFormed(held: seq<HoldContext>, ctx: NavigationContext)
    requires WellFormed(held)
    ensures WellFormed(Release(held, ctx))
    ensures !Holds(Release(held, ctx), ctx)
  {
    var r := Release(held, ctx);
    ReleaseMembers(held, ctx);
    ReleaseNoDuplicates(held, ctx);
    forall i | 0 <= i < |r|
      ensures !r[i].context.IsSameAs(ctx)
    {
      assert r[i] in r;
    }
  }

  /** The effect of a press on the held list: nothing if the input is already
      held; otherwise a new entry, for a direction only. */
  function Press(held: seq<HoldContext>, ctx: NavigationContext): (r: seq<HoldContext>)
    ensures |held| <= |r| <= |held| + 1 && r[..|held|] == held
    ensures |r| == |held| + 1 <==> !Holds(held, ctx) && IsRepeatAction(ctx.action)
    ensures |r| == |held| + 1 ==> r[|held|] == HoldContext(ctx, InputRepeatCooldown)
  {
    if Holds(held, ctx) then held
    else if IsRepeatAction(ctx.action) then held + [NewHold(ctx)]
    else held
  }

  lemma {:induction false} NoDuplicateAppend(held: seq<HoldContext>, h: HoldContext)
    requires NoDuplicateHolds(held) && !Holds(held, h.context)
    ensures NoDuplicateHolds(held + [h])
  {
    NoDuplicateHoldsIsPairwise(held);
    var s := held + [h];
    forall i, j | 0 <= i < j < |s|
      ensures !s[i].context.IsSameAs(s[j].context)
    {
      assert s[i] == held[i];
      if j == |held| {
        assert !held[i].context.IsSameAs(h.context);
      } else {
        assert s[j] == held[j];
      }
    }
    NoDuplicateHoldsIsPairwise(s);
  }

  /** A press keeps the held list well formed; afterwards the input is held
      exactly when it was already held or is a direction. */
  lemma PressKeepsWellFormed(held: seq<HoldContext>, ctx: NavigationContext)
    requires WellFormed(held)
    ensures WellFormed(Press(held, ctx))
    ensures Holds(Press(held, ctx), ctx) <==> Holds(held, ctx) || IsRepeatAction(ctx.action)
  {
    if !Holds(held, ctx) && IsRepeatAction(ctx.action) {
      var s := held + [NewHold(ctx)];
      NoDuplicateAppend(held, NewHold(ctx));
      assert s[|held|].context.IsSameAs(ctx);
    }
  }

  /** Whether a held entry's timer runs out during a frame of `delta` ms. */
  predicate Expires(h: HoldContext, delta: nat) {
    h.timer - delta <= 0
  }

  /** One frame for one held entry: the timer goes down by the frame time and,
      if it has run out, starts over at the repeat interval. */
  function Tick(h: HoldContext, delta: nat): (r: HoldContext)
    ensures r.context == h.context
    ensures r.timer > 0
    ensures Expires(h, delta) ==> r.timer == InputRepeatTime
    ensures !Expires(h, delta) ==> r.timer == h.timer - delta
  {
    var t := h.timer - delta;
    if t <= 0 then h.(timer := InputRepeatTime) else h.(timer := t)
  }

  /** One frame for the whole held list. */
  function TickAll(held: seq<HoldContext>, delta: nat): (r: seq<HoldContext>)
    ensures |r| == |held|
    ensures forall i :: 0 <= i < |held| ==> r[i].context == held[i].context && r[i].timer > 0
    ensures forall i :: 0 <= i < |held| && !Expires(held[i], delta) ==> r[i].timer == held[i].timer - delta
  {
    seq(|held|, i requires 0 <= i < |held| => Tick(held[i], delta))
  }

  /** A sequence ticked hold by hold is TickAll of the original. */
  lemma TickAllPointwise(held: seq<HoldContext>, ticked: seq<HoldContext>, delta: nat)
    requires |ticked| == |held|
    requires forall k :: 0 <= k < |held| ==> ticked[k] == Tick(held[k], delta)
    ensures ticked == TickAll(held, delta)
  {
  }

  /** A frame keeps the held list well formed; in particular every timer is
      positive afterwards. */
  lemma TickAllKeepsWellFormed(held: seq<HoldContext>, delta: nat)
    requires WellFormed(held)
    ensures WellFormed(TickAll(held, delta))
    ensures forall i :: 0 <= i < |held| ==> TickAll(held, delta)[i].context == held[i].context
  {
    var t := TickAll(held, delta);
    NoDuplicateHoldsIsPairwise(held);
    NoDuplicateHoldsIsPairwise(t);
    forall h | h in t
      ensures IsRepeatAction(h.context.action) && h.timer > 0
    {
      var i :| 0 <= i < |t| && t[i] == h;
      assert held[i] in held;
    }
  }

  /** The repeat events a frame fires, in list order: one per entry whose
      timer runs out. */
  function Repeats(held: seq<HoldContext>, delta: nat): (r: seq<NavigationContext>)
    ensures |r| <= |held|
    ensures forall c :: c in r ==> c.isRepeat
    decreases |held|
  {
    if |held| == 0 then []
    else
      var last := held[|held| - 1];
      Repeats(held[..|held| - 1], delta) + (if Expires(last, delta) then [last.context.AsRepeat()] else [])
  }

  /** How many of `cs` are the same input as `ctx`. */
  function CountSame(cs: seq<NavigationContext>, ctx: NavigationContext): nat
    decreases |cs|
  {
    if |cs| == 0 then 0
    else CountSame(cs[..|cs| - 1], ctx) + (if cs[|cs| - 1].IsSameAs(ctx) then 1 else 0)
  }

  lemma CountSameSnoc(cs: seq<NavigationContext>, c: NavigationContext, ctx: NavigationContext)
    ensures CountSame(cs + [c], ctx) == CountSame(cs, ctx) + (if c.IsSameAs(ctx) then 1 else 0)
  {
    assert (cs + [c])[..|cs|] == cs;
  }

  lemma {:induction false} RepeatsOfUnheld(held: seq<HoldContext>, delta: nat, ctx: NavigationContext)
    requires forall k :: 0 <= k < |held| ==> !held[k].context.IsSameAs(ctx)
    ensures CountSame(Repeats(held, delta), ctx) == 0
    decreases |held|
  {
    if |held| > 0 {
      var n := |held| - 1;
      var p := held[..n];
      assert forall k :: 0 <= k < n ==> p[k] == held[k];
      RepeatsOfUnheld(p, delta, ctx);
      if Expires(held[n], delta) {
        CountSameSnoc(Repeats(p, delta), held[n].context.AsRepeat(), ctx);
      } else {
        assert Repeats(held, delta) == Repeats(p, delta) + [] == Repeats(p, delta);
      }
    }
  }

  lemma {:induction false} RepeatsOncePerEntry(held: seq<HoldContext>, delta: nat, i: nat)
    requires PairwiseDistinct(held) && i < |held|
    ensures CountSame(Repeats(held, delta), held[i].context) == if Expires(held[i], delta) then 1 else 0
    decreases |held|
  {
    var n := |held| - 1;
    var p := held[..n];
    var ctx := held[i].context;
    if i == n {
      forall k | 0 <= k < n
        ensures !p[k].context.IsSameAs(ctx)
      {
        assert p[k] == held[k];
      }
      RepeatsOfUnheld(p, delta, ctx);
    } else {
      assert p[i] == held[i];
      assert PairwiseDistinct(p) by {
        forall a, b | 0 <= a < b < |p|
          ensures !p[a].context.IsSameAs(p[b].context)
        {
          assert p[a] == held[a] && p[b] == held[b];
        }
      }
      RepeatsOncePerEntry(p, delta, i);
      assert !held[n].context.IsSameAs(ctx);
    }
    if Expires(held[n], delta) {
      CountSameSnoc(Repeats(p, delta), held[n].context.AsRepeat(), ctx);
    } else {
      assert Repeats(held, delta) == Repeats(p, delta) + [] == Repeats(p, delta);
    }
  }

  /** In a well-formed held list, a frame fires exactly one repeat event for
      each entry whose timer runs out, and none for the others. */
  lemma RepeatsFireOncePerExpiredHold(held: seq<HoldContext>, delta: nat, i: nat)
    requires WellFormed(held) && i < |held|
    ensures CountSame(Repeats(held, delta), held[i].context) == if Expires(held[i], delta) then 1 else 0
  {
    NoDuplicateHoldsIsPairwise(held);
    RepeatsOncePerEntry(held, delta, i);
  }

  /** Where an event went: every event reaches the event subscribers, and the
      scheme on top of the stack, if there is one. */
  datatype Delivery = Delivery(context: NavigationContext, scheme: Option<SchemeId>)

  /** The scheme on top of the stack (the stack's last element). */
  function Top(stack: seq<SchemeId>): (r: Option<SchemeId>)
    ensures r.None? <==> |stack| == 0
    ensures r.Some? ==> r.value == stack[|stack| - 1]
  {
    if |stack| == 0 then None else Some(stack[|stack| - 1])
  }

  /** What the help bar shows. */
  datatype HelpBarView = HelpBarReset | HelpBarShows(scheme: SchemeId)

  /** The help bar follows the top scheme, and is reset when there is none. */
  function HelpBarFor(stack: seq<SchemeId>): (r: HelpBarView)
    ensures r.HelpBarReset? <==> |stack| == 0
    ensures r.HelpBarShows? ==> r.scheme == stack[|stack| - 1]
  {
    match Top(stack)
    case None => HelpBarReset
    case Some(s) => HelpBarShows(s)
  }

  /** Pushing a scheme puts it on top; popping it again brings back the
      previous top, and the help bar with it. */
  lemma PushPopTop(stack: seq<SchemeId>, scheme: SchemeId)
    ensures Top(stack + [scheme]) == Some(scheme)
    ensures HelpBarFor(stack + [scheme]) == HelpBarShows(scheme)
    ensures (stack + [scheme])[..|stack|] == stack
    ensures Top((stack + [scheme])[..|stack|]) == Top(stack)
  {
    assert (stack + [scheme])[..|stack|] == stack;
  }

  /** The deliveries of a run of events that all go to the same scheme. */
  function DeliverAll(cs: seq<NavigationContext>, scheme: Option<SchemeId>): seq<Delivery> {
    seq(|cs|, i requires 0 <= i < |cs| => Delivery(cs[i], scheme))
  }

  lemma DeliverAllSnoc(cs: seq<NavigationContext>, c: NavigationContext, scheme: Option<SchemeId>)
    ensures DeliverAll(cs + [c], scheme) == DeliverAll(cs, scheme) + [Delivery(c, scheme)]
  {
  }

  /** The dispatcher. `events` records every navigation event raised, in
      order, with the scheme that received it. */
  class Navigator {
    var held: seq<HoldContext>
    var schemeStack: seq<SchemeId>
    var helpBar: HelpBarView
    var events: seq<Delivery>

    ghost predicate Valid()
      reads this
    {
      WellFormed(held) && helpBar == HelpBarFor(schemeStack)
    }

    /** A new dispatcher, as it stands after its start-up help bar update. */
    constructor ()
      ensures Valid()
      ensures held == [] && schemeStack == [] && events == []
      ensures helpBar == HelpBarReset
    {
      held := [];
      schemeStack := [];
      events := [];
      helpBar := HelpBarReset;
    }

    /** A menu button moved: pressed starts a hold, released ends it. The
        input is never a repeat. */
    method ProcessInput(player: PlayerId, action: MenuAction, button: bool)
      requires Valid()
      modifies this`held, this`events
      ensures Valid()
      ensures var ctx := NavigationContext(action, player, false);
        && held == (if button then Press(old(held), ctx) else Release(old(held), ctx))
        && events == (if button && !Holds(old(held), ctx)
                      then old(events) + [Delivery(ctx, Top(schemeStack))]
                      else old(events))
    {
      var context := NavigationContext(action, player, false);
      if button {
        StartNavigationHold(context);
      } else {
        EndNavigationHold(context);
      }
    }

    /** A press: ignored when the same input is already held; otherwise one
        event is raised, and a direction starts being held. */
    method StartNavigationHold(ctx: NavigationContext)
      requires Valid()
      modifies this`held, this`events
      ensures Valid()
      ensures old(Holds(held, ctx)) ==> held == old(held) && events == old(events)
      ensures !old(Holds(held, ctx)) ==>
        && events == old(events) + [Delivery(ctx, Top(schemeStack))]
        && held == old(held) + (if IsRepeatAction(ctx.action) then [NewHold(ctx)] else [])
      ensures held == Press(old(held), ctx)
    {
      if Holds(held, ctx) {
        return;
      }
      PressKeepsWellFormed(held, ctx);
      InvokeNavigationEvent(ctx);
      if IsRepeatAction(ctx.action) {
        held := held + [NewHold(ctx)];
      }
    }

    /** A release: every entry for the same input is dropped. */
    method EndNavigationHold(ctx: NavigationContext)
      requires Valid()
      modifies this`held, this`events
      ensures Valid()
      ensures held == Release(old(held), ctx) && !Holds(held, ctx)
      ensures events == old(events)
    {
      ReleaseKeepsWellFormed(held, ctx);
      held := Release(held, ctx);
    }

    /** Whether any player holds `action`. */
    method IsHeld(action: MenuAction) returns (r: bool)
      ensures r <==> exists i :: 0 <= i < |held| && held[i].context.action == action
    {
      r := false;
      var i := 0;
      while !r && i < |held|
        invariant 0 <= i <= |held|
        invariant r <==> exists k :: 0 <= k < i && held[k].context.action == action
      {
        r := held[i].context.action == action;
        i := i + 1;
      }
    }

    /** Raise one navigation event: to the subscribers, and to the top scheme
        when the stack is not empty. */
    method InvokeNavigationEvent(ctx: NavigationContext)
      modifies this`events
      ensures events == old(events) + [Delivery(ctx, Top(schemeStack))]
    {
      events := events + [Delivery(ctx, Top(schemeStack))];
    }

    /** One frame of `delta` ms: every held timer counts down, and each that
        runs out starts over and raises one repeat event. */
    method Update(delta: nat)
      requires Valid()
      modifies this`held, this`events
      ensures Valid()
      ensures held == TickAll(old(held), delta)
      ensures events == old(events) + DeliverAll(Repeats(old(held), delta), Top(schemeStack))
    {
      TickHolds(delta);
      TickAllKeepsWellFormed(old(held), delta);
    }

    /** The loop of Update: each hold in order, with its repeat delivered
        when it expires. */
    method TickHolds(delta: nat)
      modifies this`held, this`events
      ensures held == TickAll(old(held), delta)
      ensures events == old(events) + DeliverAll(Repeats(old(held), delta), Top(schemeStack))
    {
      ghost var before := held;
      var i := 0;
      while i < |held|
        invariant 0 <= i <= |held| == |before|
        invariant forall k :: 0 <= k < i ==> held[k] == Tick(before[k], delta)
        invariant forall k :: i <= k < |held| ==> held[k] == before[k]
        invariant events == old(events) + DeliverAll(Repeats(before[..i], delta), Top(schemeStack))
      {
        var hold := held[i];
        var timer := hold.timer - delta;
        assert before[..i + 1][..i] == before[..i];
        if timer <= 0 {
          held := held[i := hold.(timer := InputRepeatTime)];
          DeliverAllSnoc(Repeats(before[..i], delta), hold.context.AsRepeat(), Top(schemeStack));
          InvokeNavigationEvent(hold.context.AsRepeat());
        } else {
          held := held[i := hold.(timer := timer)];
          assert Repeats(before[..i + 1], delta) == Repeats(before[..i], delta) + [];
        }
        i := i + 1;
      }
      assert before[..i] == before;
      TickAllPointwise(before, held, delta);
    }

    method PushScheme(scheme: SchemeId)
      requires Valid()
      modifies this`schemeStack, this`helpBar
      ensures Valid()
      ensures schemeStack == old(schemeStack) + [scheme]
      ensures helpBar == HelpBarShows(scheme)
    {
      schemeStack := schemeStack + [scheme];
      UpdateHelpBar();
    }

    /** Pop the top scheme. On an empty stack the pop fails (`ok` is false)
        and nothing changes. */
    method PopScheme() returns (ok: bool)
      requires Valid()
      modifies this`schemeStack, this`helpBar
      ensures Valid()
      ensures ok <==> |old(schemeStack)| > 0
      ensures ok ==> schemeStack == old(schemeStack)[..|old(schemeStack)| - 1]
      ensures !ok ==> schemeStack == old(schemeStack) && helpBar == old(helpBar)
    {
      if |schemeStack| == 0 {
        return false;
      }
      schemeStack := schemeStack[..|schemeStack| - 1];
      UpdateHelpBar();
      ok := true;
    }

    method PopAllSchemes()
      requires Valid()
      modifies this`schemeStack, this`helpBar
      ensures Valid()
      ensures schemeStack == [] && helpBar == HelpBarReset
    {
      schemeStack := [];
      UpdateHelpBar();
    }

    /** Show the top scheme in the help bar, or reset it when the stack is empty. */
    method UpdateHelpBar()
      modifies this`helpBar
      ensures helpBar == HelpBarFor(schemeStack)
    {
      if |schemeStack| <= 0 {
        helpBar := HelpBarReset;
      } else {
        helpBar := HelpBarShows(schemeStack[|schemeStack| - 1]);
      }
    }
  }

  /** Pushing a scheme and popping it again restores the stack, the top and
      the help bar. */
  method PushThenPopRestores(nav: Navigator, scheme: SchemeId)
    requires nav.Valid()
    modifies nav`schemeStack, nav`helpBar
    ensures nav.Valid()
    ensures nav.schemeStack == old(nav.schemeStack)
    ensures Top(nav.schemeStack) == Top(old(nav.schemeStack))
    ensures nav.helpBar == old(nav.helpBar)
  {
    nav.PushScheme(scheme);
    var ok := nav.PopScheme();
    assert (old(nav.schemeStack) + [scheme])[..|old(nav.schemeStack)|] == old(nav.schemeStack);
  }
}
