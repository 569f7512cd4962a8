/**
 * The subscription index and the sessions in it, as a state machine whose steps are the manager calls and
 * callbacks that can interleave.
 */
module SubscriptionIndex {
  type Index<S> = map<string, set<S>>

  function Members<S>(subs: Index<S>, o: string): set<S> {
    if o in subs then subs[o] else {}
  }

  function Subscribed<S>(subs: Index<S>, o: string, s: S): Index<S> {
    subs[o := Members(subs, o) + {s}]
  }

  function Kept<S>(subs: Index<S>, o: string, members: set<S>): Index<S> {
    if members == {} then subs - {o} else subs[o := members]
  }

  function Unsubscribed<S>(subs: Index<S>, o: string, s: S): Index<S> {
    if o in subs then Kept(subs, o, subs[o] - {s}) else subs
  }

  /** `unsubscribe` as the callbacks call it: not for the empty order. */
  function Left<S>(subs: Index<S>, o: string, s: S): Index<S> {
    if o != "" then Unsubscribed(subs, o, s) else subs
  }

  function Pruned<S>(subs: Index<S>, o: string, live: set<S>): Index<S> {
    if o in subs then Kept(subs, o, subs[o] * live) else subs
  }

  ghost predicate NoEmptySets<S>(subs: Index<S>) {
    forall o | o in subs :: subs[o] != {}
  }

  lemma MembersAfter<S>(subs: Index<S>, o: string, p: string, s: S)
    requires NoEmptySets(subs)
    ensures NoEmptySets(Subscribed(subs, o, s)) && NoEmptySets(Unsubscribed(subs, o, s))
    ensures Members(Subscribed(subs, o, s), p) == Members(subs, p) + if p == o then {s} else {}
    ensures Members(Unsubscribed(subs, o, s), p) == Members(subs, p) - if p == o then {s} else {}
  {
  }

  lemma PrunedMembers<S>(subs: Index<S>, o: string, p: string, live: set<S>)
    requires NoEmptySets(subs)
    ensures NoEmptySets(Pruned(subs, o, live))
    ensures Members(Pruned(subs, o, live), p) == if p == o then Members(subs, p) * live else Members(subs, p)
  {
  }

  // ----- sessions and the index -----------------------------------------------------------------------------

  /** `joined`: subscribed under `orderId` and not unsubscribed since; `received`: frames posted by notifications. */
  datatype Client<M> = Client(live: bool, orderId: string, joined: bool, received: seq<M>)

  datatype Hub<S, M> = Hub(subs: Index<S>, sessions: map<S, Client<M>>)

  datatype HubStep<S, M> =
    | Connect(s: S)
    | Leave(s: S)                    // before a new subscription, on close, on a write error
    | Join(s: S, order: string)      // `order_id_` assigned and subscribed
    | Notify(order: string, frame: M)
    | Expire(s: S)                   // the last reference to the session goes

  /** `on_read` unsubscribes before it subscribes, unless the current order is the empty string. */
  predicate HubEnabled<S, M>(hub: Hub<S, M>, st: HubStep<S, M>, allowEmpty: bool) {
    match st
    case Connect(s) => s !in hub.sessions
    case Leave(s) => s in hub.sessions && hub.sessions[s].live
    case Join(s, o) =>
      s in hub.sessions && hub.sessions[s].live && (o == "" ==> allowEmpty)
        && (hub.sessions[s].orderId == "" || !hub.sessions[s].joined)
    case Notify(_, _) => true
    case Expire(s) => s in hub.sessions && hub.sessions[s].live
  }

  function LiveSessions<S, M>(hub: Hub<S, M>): set<S> {
    set s | s in hub.sessions && hub.sessions[s].live
  }

  /** The frame goes to every live member of the order's set. */
  function Delivered<S, M>(hub: Hub<S, M>, o: string, frame: M): map<S, Client<M>> {
    map s | s in hub.sessions ::
      if s in Members(hub.subs, o) && hub.sessions[s].live
      then hub.sessions[s].(received := hub.sessions[s].received + [frame])
      else hub.sessions[s]
  }

  function HubNext<S, M>(hub: Hub<S, M>, st: HubStep<S, M>, allowEmpty: bool): Hub<S, M>
    requires HubEnabled(hub, st, allowEmpty)
  {
    match st
    case Connect(s) => hub.(sessions := hub.sessions[s := Client(true, "", false, [])])
    case Leave(s) =>
      var k := hub.sessions[s];
      Hub(Left(hub.subs, k.orderId, s), hub.sessions[s := k.(joined := k.joined && k.orderId == "")])
    case Join(s, o) =>
      Hub(Subscribed(hub.subs, o, s), hub.sessions[s := hub.sessions[s].(orderId := o, joined := true)])
    case Notify(o, frame) => Hub(Pruned(hub.subs, o, LiveSessions(hub)), Delivered(hub, o, frame))
    case Expire(s) => hub.(sessions := hub.sessions[s := hub.sessions[s].(live := false)])
  }

  ghost predicate HubReachable<S(!new), M(!new)>(hub: Hub<S, M>, allowEmpty: bool) {
    exists steps :: IsHubRun<S, M>(steps, allowEmpty) && HubExec<S, M>(steps, allowEmpty) == hub
  }

  ghost predicate IsHubRun<S, M>(steps: seq<HubStep<S, M>>, allowEmpty: bool)
    decreases |steps|, 0
  {
    steps == [] ||
    (IsHubRun(steps[..|steps| - 1], allowEmpty)
      && HubEnabled(HubExec(steps[..|steps| - 1], allowEmpty), steps[|steps| - 1], allowEmpty))
  }

  ghost function HubExec<S, M>(steps: seq<HubStep<S, M>>, allowEmpty: bool): Hub<S, M>
    requires IsHubRun(steps, allowEmpty)
    decreases |steps|, 1
  {
    if steps == [] then Hub(map[], map[])
    else HubNext(HubExec(steps[..|steps| - 1], allowEmpty), steps[|steps| - 1], allowEmpty)
  }

  /** Under a nonempty order the index holds, of the live sessions, exactly those joined to that order. */
  ghost predicate Agrees<S, M>(hub: Hub<S, M>) {
    && NoEmptySets(hub.subs)
    && (forall o, s | s in Members(hub.subs, o) :: s in hub.sessions)
    && (forall o, s | o != "" && s in hub.sessions && hub.sessions[s].live ::
          s in Members(hub.subs, o) <==> hub.sessions[s].orderId == o && hub.sessions[s].joined)
  }

  lemma StepAgrees<S, M>(hub: Hub<S, M>, st: HubStep<S, M>, allowEmpty: bool)
    requires Agrees(hub) && HubEnabled(hub, st, allowEmpty)
    ensures Agrees(HubNext(hub, st, allowEmpty))
    ensures !allowEmpty && "" !in hub.subs ==> "" !in HubNext(hub, st, allowEmpty).subs
  {
    var after := HubNext(hub, st, allowEmpty);
    match st
    case Leave(s) =>
      var o := hub.sessions[s].orderId;
      forall p ensures Members(after.subs, p) == Members(hub.subs, p) - if p == o && o != "" then {s} else {} {
        MembersAfter(hub.subs, o, p, s);
      }
      MembersAfter(hub.subs, o, o, s);
    case Join(s, o) =>
      forall p ensures Members(after.subs, p) == Members(hub.subs, p) + if p == o then {s} else {} {
        MembersAfter(hub.subs, o, p, s);
      }
      MembersAfter(hub.subs, o, o, s);
    case Notify(o, frame) =>
      var live := LiveSessions(hub);
      forall p ensures Members(after.subs, p) == if p == o then Members(hub.subs, p) * live else Members(hub.subs, p) {
        PrunedMembers(hub.subs, o, p, live);
      }
      PrunedMembers(hub.subs, o, o, live);
    case _ =>
  }

  lemma {:induction false} RunAgrees<S, M>(steps: seq<HubStep<S, M>>, allowEmpty: bool)
    requires IsHubRun(steps, allowEmpty)
    ensures Agrees(HubExec(steps, allowEmpty))
    ensures !allowEmpty ==> "" !in HubExec(steps, allowEmpty).subs
    decreases |steps|
  {
    if steps != [] {
      var front := steps[..|steps| - 1];
      RunAgrees(front, allowEmpty);
      StepAgrees(HubExec(front, allowEmpty), steps[|steps| - 1], allowEmpty);
    }
  }

  /** In every reachable state a notification reaches every live session joined to its order, once, and no
      other; and it removes from that order's set exactly the expired sessions. */
  lemma NotifyIsExact<S(!new), M(!new)>(hub: Hub<S, M>, o: string, frame: M, allowEmpty: bool)
    requires HubReachable(hub, allowEmpty) && o != ""
    ensures
      var after := HubNext(hub, Notify(o, frame), allowEmpty);
      && (forall s | s in hub.sessions :: after.sessions[s] ==
            if hub.sessions[s].live && hub.sessions[s].joined && hub.sessions[s].orderId == o
            then hub.sessions[s].(received := hub.sessions[s].received + [frame])
            else hub.sessions[s])
      && (forall s | s in hub.sessions :: s in Members(after.subs, o)
            <==> s in Members(hub.subs, o) && hub.sessions[s].live)
      && (forall p | p != o :: Members(after.subs, p) == Members(hub.subs, p))
  {
    var steps :| IsHubRun<S, M>(steps, allowEmpty) && HubExec<S, M>(steps, allowEmpty) == hub;
    RunAgrees(steps, allowEmpty);
    forall p
      ensures Members(HubNext(hub, Notify(o, frame), allowEmpty).subs, p)
           == if p == o then Members(hub.subs, p) * LiveSessions(hub) else Members(hub.subs, p)
    {
      PrunedMembers(hub.subs, o, p, LiveSessions(hub));
    }
  }

  ghost predicate AtMostOneOrder<S, M>(hub: Hub<S, M>) {
    forall s, o, p | s in LiveSessions(hub) && s in Members(hub.subs, o) && s in Members(hub.subs, p) :: o == p
  }

  /** A live session that was left under the empty order while it is joined to another. */
  ghost predicate Straddles<S, M>(hub: Hub<S, M>, s: S) {
    s in LiveSessions(hub) && s in Members(hub.subs, "") && hub.sessions[s].orderId != "" && hub.sessions[s].joined
  }

  /** In a state that agrees, two orders of one session can only be its current one and the empty one. */
  lemma OnlyTheEmptyOrderIsExtra<S, M>(hub: Hub<S, M>)
    requires Agrees(hub)
    ensures AtMostOneOrder(hub) <==> forall s | s in LiveSessions(hub) :: !Straddles(hub, s)
  {
    forall s | s in LiveSessions(hub) && Straddles(hub, s) ensures s in Members(hub.subs, hub.sessions[s].orderId) {
    }
    if !AtMostOneOrder(hub) {
      var s, o, p :| s in LiveSessions(hub) && s in Members(hub.subs, o) && s in Members(hub.subs, p) && o != p;
      assert Straddles(hub, s);
    }
  }

  /** For sessions and frames of any type: while no client names the empty order, live sessions stand under at
      most one order. */
  lemma OneOrder<S, M>(steps: seq<HubStep<S, M>>)
    requires IsHubRun(steps, false)
    ensures AtMostOneOrder(HubExec(steps, false))
  {
    RunAgrees(steps, false);
    OnlyTheEmptyOrderIsExtra(HubExec(steps, false));
  }

  /** A session that subscribed to the empty order is not unsubscribed from it by its next subscription. */
  lemma EmptyOrderSticks<S, M>(s: S) returns (steps: seq<HubStep<S, M>>)
    ensures IsHubRun(steps, true) && !AtMostOneOrder(HubExec(steps, true))
  {
    var one: seq<HubStep<S, M>> := [Connect(s)];
    ExtendHubRun<S, M>([], Connect(s), true);
    assert [] + one == one;
    ExtendHubRun(one, Join(s, ""), true);
    var two := one + [Join(s, "")];
    ExtendHubRun(two, Join(s, "a"), true);
    steps := two + [Join(s, "a")];
    var hub := HubExec(steps, true);
    assert s in LiveSessions(hub) && s in Members(hub.subs, "") && s in Members(hub.subs, "a");
  }

  lemma ExtendHubRun<S, M>(steps: seq<HubStep<S, M>>, st: HubStep<S, M>, allowEmpty: bool)
    requires IsHubRun(steps, allowEmpty) && HubEnabled(HubExec(steps, allowEmpty), st, allowEmpty)
    ensures IsHubRun(steps + [st], allowEmpty)
    ensures HubExec(steps + [st], allowEmpty) == HubNext(HubExec(steps, allowEmpty), st, allowEmpty)
  {
    assert (steps + [st])[..|steps + [st]| - 1] == steps;
  }

  /** Live sessions are always under at most one order exactly if no client can name the empty order. */
  lemma OneOrderExactly<S(!new), M(!new)>(s: S, allowEmpty: bool)
    ensures (forall hub: Hub<S, M> | HubReachable(hub, allowEmpty) :: AtMostOneOrder(hub)) <==> !allowEmpty
  {
    if allowEmpty {
      var steps := EmptyOrderSticks<S, M>(s);
      assert HubReachable(HubExec(steps, true), true);
    } else {
      forall hub: Hub<S, M> | HubReachable(hub, allowEmpty) ensures AtMostOneOrder(hub) {
        var steps :| IsHubRun<S, M>(steps, allowEmpty) && HubExec<S, M>(steps, allowEmpty) == hub;
        OneOrder(steps);
      }
    }
  }
}
