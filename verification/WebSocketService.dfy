/**
 * The WebSocket service as code: sessions with their callbacks, the notification manager, and the consumer
 * of payment results. The methods are proved against the write pump and the subscription index.
 */
module WebSocketService {
  import opened Collections
  import opened WritePump
  import opened SubscriptionIndex
  import Protocol

  datatype Frame =
    | SubscribedFrame(orderId: string)
    | OrderUpdate(orderId: string, status: Protocol.NoticeStatus, message: string, timestamp: int)

  /** What a completed read holds: a frame that is no subscription (or no JSON), one whose order id is not a
      string, or a subscription. */
  datatype ClientText = Ignored | BadOrderId | Subscribe(orderId: string)

  datatype ReadResult = Closed | ReadFailed | Text(text: ClientText)

  /** A session that has left its order; the empty order is never left. */
  function Parted<M>(k: Client<M>): Client<M> { k.(joined := k.joined && k.orderId == "") }

  function AfterRead<M>(k: Client<M>, r: ReadResult): Client<M> {
    match r
    case Closed => Parted(k)
    case ReadFailed => k
    case Text(Ignored) => k
    case Text(BadOrderId) => Parted(k)
    case Text(Subscribe(o)) => k.(orderId := o, joined := true)
  }

  function IndexAfterRead<S>(subs: Index<S>, orderId: string, s: S, r: ReadResult): Index<S> {
    match r
    case Closed => Left(subs, orderId, s)
    case ReadFailed => subs
    case Text(Ignored) => subs
    case Text(BadOrderId) => Left(subs, orderId, s)
    case Text(Subscribe(o)) => Subscribed(Left(subs, orderId, s), o, s)
  }

  ghost function Alive(sessions: set<WebSocketSession>): set<WebSocketSession>
    reads sessions`live
  {
    set s | s in sessions && s.live
  }

  class NotificationManager {
    var subscriptions: Index<WebSocketSession>

    constructor ()
      ensures subscriptions == map[]
    {
      subscriptions := map[];
    }

    method SubscribeTo(orderId: string, session: WebSocketSession)
      modifies this
      ensures subscriptions == Subscribed(old(subscriptions), orderId, session)
    {
      if orderId !in subscriptions {
        subscriptions := subscriptions[orderId := {}];
      }
      subscriptions := subscriptions[orderId := subscriptions[orderId] + {session}];
    }

    method Unsubscribe(orderId: string, session: WebSocketSession)
      modifies this
      ensures subscriptions == Unsubscribed(old(subscriptions), orderId, session)
    {
      if orderId !in subscriptions {
        return;
      }
      subscriptions := subscriptions[orderId := subscriptions[orderId] - {session}];
      if subscriptions[orderId] == {} {
        subscriptions := subscriptions - {orderId};
      }
    }

    /** Walks the set once, posting the frame to each session still alive and erasing the others. */
    method Notify(orderId: string, frame: Frame)
      modifies this, Members(subscriptions, orderId)`mailbox, Members(subscriptions, orderId)`received
      ensures subscriptions == Pruned(old(subscriptions), orderId, old(Alive(Members(subscriptions, orderId))))
      ensures forall s | s in old(Members(subscriptions, orderId)) ::
        var posted := if s.live then [frame] else [];
        s.mailbox == old(s.mailbox) + posted && s.received == old(s.received) + posted
    {
      if orderId !in subscriptions {
        return;
      }
      var members: set<WebSocketSession> := subscriptions[orderId];
      ghost var all := members;
      ghost var live := Alive(all);
      var ahead: set<WebSocketSession> := members;
      while ahead != {}
        invariant ahead <= members <= all
        invariant members == ahead + (live - ahead)
        invariant forall s | s in all ::
          var posted := if s.live && s !in ahead then [frame] else [];
          s.mailbox == old(s.mailbox) + posted && s.received == old(s.received) + posted
        invariant subscriptions == old(subscriptions)
        decreases ahead
      {
        var s: WebSocketSession :| s in ahead;
        ahead := ahead - {s};
        if s.live {
          s.Send(frame);
          s.received := s.received + [frame];
        } else {
          members := members - {s};
        }
      }
      assert members == all * live;
      subscriptions := subscriptions[orderId := members];
      if members == {} {
        subscriptions := subscriptions - {orderId};
        assert subscriptions == old(subscriptions) - {orderId};
      }
    }
  }

  class WebSocketSession {
    const manager: NotificationManager
    var live: bool
    var reading: bool
    var orderId: string
    var mailbox: seq<Frame>
    var writeQueue: seq<Frame>
    var writing: bool
    ghost var outstanding: seq<Frame>
    ghost var written: seq<Frame>
    ghost var failed: bool
    ghost var joined: bool
    ghost var received: seq<Frame>

    constructor (manager: NotificationManager)
      ensures this.manager == manager && live && reading && orderId == ""
      ensures PumpState() == Idle() && InOrder() && AsClient() == Client(true, "", false, [])
    {
      this.manager := manager;
      live, reading, orderId := true, true, "";
      mailbox, writeQueue, writing := [], [], false;
      outstanding, written, failed := [], [], false;
      joined, received := false, [];
    }

    ghost function PumpState(): Pump<Frame>
      reads this
    {
      Pump(mailbox, writeQueue, writing, outstanding, written, failed)
    }

    /** The session writes one message at a time, the front of its queue; what is posted does not matter. */
    ghost predicate InOrder()
      reads this`writeQueue, this`writing, this`outstanding, this`failed
    {
      PumpOk(Pump([], writeQueue, writing, outstanding, [], failed))
    }

    /** The session as the index machine sees it. */
    ghost function AsClient(): Client<Frame>
      reads this
    {
      Client(live, orderId, joined, received)
    }

    method Send(frame: Frame)
      modifies this`mailbox
      ensures PumpState() == After(old(PumpState()), Post(frame))
    {
      mailbox := mailbox + [frame];
    }

    /** The strand runs the oldest posted function. */
    method RunNext()
      requires InOrder() && mailbox != []
      modifies this`mailbox, this`writeQueue, this`writing, this`outstanding
      ensures InOrder() && PumpState() == After(old(PumpState()), RunPosted)
    {
      StepIsFifo(PumpState(), RunPosted);
      var frame := mailbox[0];
      mailbox := mailbox[1..];
      EnqueueWrite(frame);
    }

    method EnqueueWrite(frame: Frame)
      requires InOrder()
      modifies this`writeQueue, this`writing, this`outstanding
      ensures InOrder() && PumpState() == Enqueued(old(PumpState()), frame)
    {
      writeQueue := writeQueue + [frame];
      if !writing {
        DoWrite();
      }
    }

    /** Starts the next asynchronous write; the stream allows one at a time. */
    method DoWrite()
      requires outstanding == []
      modifies this`writing, this`outstanding
      ensures PumpState() == Started(old(PumpState()))
    {
      if writeQueue == [] {
        writing := false;
        return;
      }
      writing := true;
      outstanding := outstanding + [writeQueue[0]];
    }

    /** Completion of the oldest outstanding write. */
    method OnWrite(error: bool)
      requires InOrder() && outstanding != []
      modifies this, manager
      ensures InOrder() && PumpState() == After(old(PumpState()), WriteDone(error))
      ensures reading == old(reading)
      ensures AsClient() == if error then Parted(old(AsClient())) else old(AsClient())
      ensures manager.subscriptions
        == if error then Left(old(manager.subscriptions), orderId, this) else old(manager.subscriptions)
    {
      StepIsFifo(PumpState(), WriteDone(error));
      ghost var done := outstanding[0];
      outstanding := outstanding[1..];
      if error {
        failed := true;
        if orderId != "" {
          manager.Unsubscribe(orderId, this);
          joined := false;
        }
        return;
      }
      written := written + [done];
      writeQueue := writeQueue[1..];
      DoWrite();
    }

    /** Completion of a read; afterwards the session reads on unless the connection ended. */
    method OnRead(r: ReadResult)
      requires InOrder() && reading
      modifies this, manager
      ensures InOrder() && reading == r.Text?
      ensures AsClient() == AfterRead(old(AsClient()), r)
      ensures r.Text? && r.text.Subscribe? ==>
        PumpState() == After(old(PumpState()), Post(SubscribedFrame(orderId)))
      ensures !(r.Text? && r.text.Subscribe?) ==> PumpState() == old(PumpState())
      ensures manager.subscriptions == IndexAfterRead(old(manager.subscriptions), old(orderId), this, r)
    {
      if r.Closed? {
        reading := false;
        if orderId != "" {
          manager.Unsubscribe(orderId, this);
          joined := false;
        }
        return;
      }
      if r.ReadFailed? {
        reading := false;
        return;
      }
      if !r.text.Ignored? {
        if orderId != "" {
          manager.Unsubscribe(orderId, this);
          joined := false;
        }
        if r.text.Subscribe? {
          orderId := r.text.orderId;
          manager.SubscribeTo(orderId, this);
          joined := true;
          Send(SubscribedFrame(orderId));
        }
      }
    }
  }

  // ----- the service as a whole ---------------------------------------------------------------------------

  /** What a completed read does to the index machine; a subscription is two steps of it. */
  function ReadEffect<S, M>(hub: Hub<S, M>, s: S, r: ReadResult): Hub<S, M>
    requires s in hub.sessions && hub.sessions[s].live
  {
    match r
    case Closed => HubNext(hub, HubStep.Leave(s), true)
    case ReadFailed => hub
    case Text(Ignored) => hub
    case Text(BadOrderId) => HubNext(hub, HubStep.Leave(s), true)
    case Text(Subscribe(o)) => HubNext(HubNext(hub, HubStep.Leave(s), true), Join(s, o), true)
  }

  lemma ReadMoves<S, M>(hub: Hub<S, M>, s: S, r: ReadResult)
    requires s in hub.sessions && hub.sessions[s].live
    ensures ReadEffect(hub, s, r)
         == Hub(IndexAfterRead(hub.subs, hub.sessions[s].orderId, s, r),
                hub.sessions[s := AfterRead(hub.sessions[s], r)])
  {
    var k := hub.sessions[s];
    Overwritten(hub.sessions, s, Parted(k), AfterRead(k, r));
  }

  lemma LeftMembers<S>(subs: Index<S>, orderId: string, s: S)
    ensures forall o ::
      Members(Left(subs, orderId, s), o) == Members(subs, o) - if o == orderId && o != "" then {s} else {}
  {
  }

  /** Who is stored under each order after a read. */
  lemma ReadMembers<S>(subs: Index<S>, orderId: string, s: S, r: ReadResult)
    ensures
      var leaves := (r.Closed? || (r.Text? && !r.text.Ignored?)) && orderId != "";
      forall o ::
        Members(IndexAfterRead(subs, orderId, s, r), o)
          == Members(subs, o) - (if leaves && o == orderId then {s} else {})
             + if r.Text? && r.text.Subscribe? && o == r.text.orderId then {s} else {}
  {
    LeftMembers(subs, orderId, s);
  }

  lemma ReadKeepsAgreement<S, M>(hub: Hub<S, M>, s: S, r: ReadResult)
    requires Agrees(hub) && s in hub.sessions && hub.sessions[s].live
    ensures Agrees(ReadEffect(hub, s, r))
  {
    var left := HubNext(hub, HubStep.Leave(s), true);
    StepAgrees(hub, HubStep.Leave(s), true);
    if r.Text? && r.text.Subscribe? {
      StepAgrees(left, Join(s, r.text.orderId), true);
    }
  }

  lemma PrunedSame<S>(subs: Index<S>, o: string, a: set<S>, b: set<S>)
    requires Members(subs, o) * a == Members(subs, o) * b
    ensures Pruned(subs, o, a) == Pruned(subs, o, b)
  {
  }

  /** The server with every session it ever accepted; its methods are the events that reach the callbacks. */
  class WebSocketServer {
    const manager: NotificationManager
    ghost var sessions: set<WebSocketSession>

    constructor ()
      ensures Valid() && fresh(manager) && sessions == {}
    {
      manager := new NotificationManager();
      sessions := {};
    }

    ghost function AsHub(): Hub<WebSocketSession, Frame>
      reads this, manager, sessions
    {
      Hub(manager.subscriptions, map s | s in sessions :: s.AsClient())
    }

    /** Every session writes in order, and sessions and index agree. */
    ghost predicate Valid()
      reads this, manager, sessions
    {
      SessionsOk() && Agrees(AsHub())
    }

    ghost predicate SessionsOk()
      reads this, sessions
    {
      forall s | s in sessions :: s.manager == manager && s.InOrder()
    }

    /** After an event of one session, which left the others alone. */
    twostate lemma OneMoved(s: WebSocketSession)
      requires s in sessions && sessions == old(sessions) && old(SessionsOk()) && s.InOrder()
      requires forall t | t in sessions && t != s :: unchanged(t)
      ensures SessionsOk() && AsHub().sessions == old(AsHub()).sessions[s := s.AsClient()]
    {
    }

    /** The index holds sessions only, the live ones under their current order. */
    lemma MembersAreSessions(orderId: string)
      requires Valid()
      ensures
        var members := Members(manager.subscriptions, orderId);
        && members <= sessions
        && Pruned(manager.subscriptions, orderId, Alive(members))
           == Pruned(manager.subscriptions, orderId, LiveSessions(AsHub()))
        && (orderId != "" ==>
              forall s | s in sessions && s.live :: s in members <==> s.orderId == orderId && s.joined)
    {
      var hub := AsHub();
      var members := Members(manager.subscriptions, orderId);
      assert forall s | s in members :: s in hub.sessions;
      assert forall s | s in sessions :: hub.sessions[s] == s.AsClient();
      PrunedSame(manager.subscriptions, orderId, Alive(members), LiveSessions(hub));
    }

    /** A session of this service stands under two orders only if one of them is the empty one. */
    lemma OneOrderEach()
      requires Valid()
      ensures AtMostOneOrder(AsHub()) <==> forall s | s in sessions && s.live && s.joined && s.orderId != "" ::
                s !in Members(manager.subscriptions, "")
    {
      var hub := AsHub();
      OnlyTheEmptyOrderIsExtra(hub);
      forall s | s in sessions
        ensures Straddles(hub, s)
           <==> s.live && s.joined && s.orderId != "" && s in Members(manager.subscriptions, "")
      {
        assert hub.sessions[s] == s.AsClient();
      }
    }

    method OnAccept() returns (s: WebSocketSession)
      requires Valid()
      modifies this
      ensures Valid() && fresh(s) && sessions == old(sessions) + {s}
      ensures AsHub() == HubNext(old(AsHub()), Connect(s), true)
    {
      ghost var before := AsHub();
      s := new WebSocketSession(manager);
      sessions := sessions + {s};
      assert AsHub().sessions == before.sessions[s := s.AsClient()];
      StepAgrees(before, Connect(s), true);
    }

    method OnRead(s: WebSocketSession, r: ReadResult)
      requires Valid() && s in sessions && s.live && s.reading
      modifies s, manager
      ensures Valid() && AsHub() == ReadEffect(old(AsHub()), s, r)
      ensures s.orderId == if r.Text? && r.text.Subscribe? then r.text.orderId else old(s.orderId)
      ensures
        var leaves := (r.Closed? || (r.Text? && !r.text.Ignored?)) && old(s.orderId) != "";
        forall o ::
          Members(manager.subscriptions, o)
            == Members(old(manager.subscriptions), o) - (if leaves && o == old(s.orderId) then {s} else {})
               + if r.Text? && r.text.Subscribe? && o == r.text.orderId then {s} else {}
    {
      ReadMembers(manager.subscriptions, s.orderId, s, r);
      ghost var before := AsHub();
      ReadKeepsAgreement(before, s, r);
      ReadMoves(before, s, r);
      s.OnRead(r);
      OneMoved(s);
    }

    method OnWrite(s: WebSocketSession, error: bool)
      requires Valid() && s in sessions && s.live && s.outstanding != []
      modifies s, manager
      ensures Valid() && s.PumpState() == After(old(s.PumpState()), WriteDone(error))
      ensures AsHub() == if error then HubNext(old(AsHub()), HubStep.Leave(s), true) else old(AsHub())
      ensures forall o ::
        Members(manager.subscriptions, o)
          == Members(old(manager.subscriptions), o) - if error && o == s.orderId && o != "" then {s} else {}
    {
      LeftMembers(manager.subscriptions, s.orderId, s);
      ghost var before := AsHub();
      StepAgrees(before, HubStep.Leave(s), true);
      s.OnWrite(error);
      OneMoved(s);
    }

    /** The strand of a session runs the oldest function posted to it. */
    method RunPosted(s: WebSocketSession)
      requires Valid() && s in sessions && s.mailbox != []
      modifies s
      ensures Valid() && AsHub() == old(AsHub()) && s.PumpState() == After(old(s.PumpState()), Event.RunPosted)
    {
      ghost var before := AsHub();
      s.RunNext();
      OneMoved(s);
    }

    /** The last reference to a session goes. */
    method Release(s: WebSocketSession)
      requires Valid() && s in sessions && s.live
      modifies s`live
      ensures Valid() && AsHub() == HubNext(old(AsHub()), Expire(s), true) && !s.live
    {
      ghost var before := AsHub();
      StepAgrees(before, Expire(s), true);
      s.live := false;
      OneMoved(s);
    }

    /** A notification is posted to exactly the live sessions whose current subscription is this order. */
    method Announce(orderId: string, frame: Frame)
      requires Valid()
      modifies manager, sessions`mailbox, sessions`received
      ensures Valid() && AsHub() == HubNext(old(AsHub()), HubStep.Notify(orderId, frame), true)
      ensures orderId != "" ==> forall s | s in sessions ::
        s.mailbox == old(s.mailbox) + if s.live && s.joined && s.orderId == orderId then [frame] else []
    {
      ghost var before := AsHub();
      StepAgrees(before, HubStep.Notify(orderId, frame), true);
      MembersAreSessions(orderId);
      manager.Notify(orderId, frame);
      assert AsHub().sessions == SubscriptionIndex.Delivered(before, orderId, frame) by {
        forall s | s in sessions ensures s.AsClient() == SubscriptionIndex.Delivered(before, orderId, frame)[s] {
          assert before.sessions[s] == old(s.AsClient());
        }
      }
    }
  }

  // ----- the result consumer ------------------------------------------------------------------------------

  datatype Field<+T> = Missing | Mistyped | Present(value: T)

  datatype ResultJson = Unparsable | ResultJson(orderId: Field<string>, success: Field<bool>, message: Field<string>)

  /** The notification for a queued message; `None` where reading it throws. */
  function FrameFor(j: ResultJson, now: int): Option<Frame> {
    if j.Unparsable? || !j.orderId.Present? || j.success.Mistyped? || j.message.Mistyped? then None
    else
      Some(OrderUpdate(
             j.orderId.value,
             if j.success.Present? && j.success.value then Protocol.FINISHED else Protocol.CANCELLED,
             if j.message.Present? then j.message.value else "",
             now))
  }

  function ToJson(r: Protocol.PaymentResult): ResultJson {
    ResultJson(Present(r.orderId), Present(r.success), Present(r.message))
  }

  /** Only an explicit success is announced as FINISHED; a missing field is a default, a mistyped one, or no order
      id, an exception. */
  lemma FrameExactly(j: ResultJson, now: int)
    ensures FrameFor(j, now).Some?
       <==> j.ResultJson? && j.orderId.Present? && !j.success.Mistyped? && !j.message.Mistyped?
    ensures FrameFor(j, now).Some? ==>
      var f := FrameFor(j, now).value;
      && f.OrderUpdate? && j.orderId == Present(f.orderId) && f.timestamp == now
      && (f.status == Protocol.FINISHED <==> j.success == Present(true))
      && (j.message == Present(f.message) || (j.message.Missing? && f.message == ""))
  {
  }

  /** What the payments service sends is announced with the status and message the protocol model records. */
  lemma ConsumerTellsTheResult(r: Protocol.PaymentResult, now: int)
    ensures
      var n := Protocol.NoticeFor(r);
      FrameFor(ToJson(r), now) == Some(OrderUpdate(n.orderId, n.status, n.message, now))
  {
  }

  /** The sessions a queued message is about. */
  function Addressees(manager: NotificationManager, j: ResultJson, now: int): set<WebSocketSession>
    reads manager
  {
    if FrameFor(j, now).Some? then Members(manager.subscriptions, FrameFor(j, now).value.orderId) else {}
  }

  method ConsumeResult(manager: NotificationManager, j: ResultJson, now: int)
    modifies manager, Addressees(manager, j, now)`mailbox, Addressees(manager, j, now)`received
    ensures
      var readable := j.ResultJson? && j.orderId.Present? && !j.success.Mistyped? && !j.message.Mistyped?;
      if readable then
        var status := if j.success == Present(true) then Protocol.FINISHED else Protocol.CANCELLED;
        var frame := OrderUpdate(j.orderId.value, status, if j.message.Present? then j.message.value else "", now);
        var members := old(Members(manager.subscriptions, j.orderId.value));
        && manager.subscriptions == Pruned(old(manager.subscriptions), frame.orderId, old(Alive(members)))
        && (forall s | s in members :: s.mailbox == old(s.mailbox) + if s.live then [frame] else [])
      else manager.subscriptions == old(manager.subscriptions)
  {
    if j.Unparsable? || !j.orderId.Present? || j.success.Mistyped? || j.message.Mistyped? {
      return;
    }
    var status := if j.success.Present? && j.success.value then Protocol.FINISHED else Protocol.CANCELLED;
    var message := if j.message.Present? then j.message.value else "";
    manager.Notify(j.orderId.value, OrderUpdate(j.orderId.value, status, message, now));
  }
}
