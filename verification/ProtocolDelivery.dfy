/**
 * Counting messages: where every copy of a request or result that was ever published went. In any run a
 * copy is still queued, held by a handler, lost to a fault, dropped as a duplicate, or it is the one that
 * decided its order.
 */
module ProtocolDelivery {
  import opened Outbox
  import opened Protocol
  import opened ProtocolSafety

  // ----- one box ----------------------------------------------------------------------------------------

  /** Copies of an event that left the queue. */
  ghost function Delivered<M>(b: Box<M>, e: EventId): int
    requires e in b.rows
  {
    multiset(b.sent)[e] as int - multiset(b.queue)[b.rows[e].payload]
  }

  ghost predicate OwnPayload<M>(b: Box<M>, e: EventId) {
    e in b.rows && b.rows[e].kind == b.route
      && (forall f | f in b.rows && b.rows[f].payload == b.rows[e].payload :: f == e)
  }

  lemma StepDelivers<M>(b: Box<M>, st: BoxStep, e: EventId)
    requires BoxEnabled(b, st) && OwnPayload(b, e)
    ensures Delivered(BoxNext(b, st), e)
         == Delivered(b, e) + if st.Lose? && b.queue[st.i] == b.rows[e].payload then 1 else 0
  {
    if st.Lose? {
      assert b.queue == b.queue[..st.i] + [b.queue[st.i]] + b.queue[st.i + 1..];
    } else if st.Publish? || st.UpdateFails? {
      EmitDelivers(b, b.batches[st.w].events[b.batches[st.w].next], e);
      assert BoxNext(b, st).queue == Emit(b, b.batches[st.w].events[b.batches[st.w].next]).queue;
    } else {
      assert BoxNext(b, st).queue == b.queue;
    }
  }

  lemma EmitDelivers<M>(b: Box<M>, published: EventId, e: EventId)
    requires published in b.rows && OwnPayload(b, e)
    ensures Delivered(Emit(b, published), e) == Delivered(b, e)
  {
  }

  lemma TakeDelivers<M>(b: Box<M>, e: EventId)
    requires b.queue != [] && OwnPayload(b, e)
    ensures Delivered(TakeMessage(b), e) == Delivered(b, e) + if b.queue[0] == b.rows[e].payload then 1 else 0
  {
    assert b.queue == [b.queue[0]] + b.queue[1..];
  }

  lemma InsertDelivers<M>(b: Box<M>, e: EventId, kind: string, payload: M, now: int)
    requires BoxInv(b) && e !in b.rows
    requires forall f | f in b.rows :: b.rows[f].payload != payload
    ensures Delivered(InsertEvent(b, e, kind, payload, now), e) == 0
    ensures forall f | f in b.rows :: Delivered(InsertEvent(b, e, kind, payload, now), f) == Delivered(b, f)
  {
    forall m | m in b.queue ensures m != payload {
      assert Traced(b, m);
      var f :| f in b.rows && b.rows[f].payload == m;
    }
    assert e !in b.sent && payload !in b.queue;
  }

  // ----- the invariant ------------------------------------------------------------------------------------

  ghost function Holders(handlers: map<HandlerId, Handler>, r: PaymentRequest): set<HandlerId> {
    set h | h in handlers && handlers[h].request == r
  }

  function Once(b: bool): nat { if b then 1 else 0 }

  ghost predicate RequestAccounted(s: System, e: EventId)
    requires e in s.requests.rows
  {
    var r := s.requests.rows[e].payload;
    Delivered(s.requests, e)
      == |Holders(s.handlers, r)| + s.lostRequests[r] + s.duplicates[r] + Once(r.orderId in s.inbox)
  }

  ghost predicate ResultAccounted(s: System, e: EventId)
    requires e in s.results.rows
  {
    var p := s.results.rows[e].payload;
    Delivered(s.results, e) == multiset(s.notices)[NoticeFor(p)] + s.lostResults[p]
  }

  ghost predicate DeliveryInv(s: System) {
    && (forall e | e in s.requests.rows :: RequestAccounted(s, e))
    && (forall e | e in s.results.rows :: ResultAccounted(s, e))
    && (forall r | r in s.duplicates :: r.orderId in s.inbox)
    && (forall r | r in s.lostRequests :: r.orderId in s.orders)
    && (forall p | p in s.lostResults :: p.orderId in s.inbox)
  }

  lemma RequestsOwnPayloads(s: System, e: EventId)
    requires OrdersInv(s) && e in s.requests.rows
    ensures OwnPayload(s.requests, e)
  {
    forall f | f in s.requests.rows && s.requests.rows[f].payload == s.requests.rows[e].payload ensures f == e {
      var o := s.requests.rows[e].payload.orderId;
      assert Announces(s.requests.rows, RequestKey, e, o) && Announces(s.requests.rows, RequestKey, f, o);
    }
  }

  lemma ResultsOwnOrders(s: System, e: EventId, f: EventId)
    requires ResultsInv(s) && e in s.results.rows && f in s.results.rows
    requires s.results.rows[e].payload.orderId == s.results.rows[f].payload.orderId
    ensures e == f
  {
    var o := s.results.rows[e].payload.orderId;
    assert Announces(s.results.rows, ResultKey, e, o) && Announces(s.results.rows, ResultKey, f, o);
  }

  lemma ResultsOwnPayloads(s: System, e: EventId)
    requires ResultsInv(s) && e in s.results.rows
    ensures OwnPayload(s.results, e)
  {
    forall f | f in s.results.rows && s.results.rows[f].payload == s.results.rows[e].payload ensures f == e {
      ResultsOwnOrders(s, e, f);
    }
  }

  lemma HolderJoins(handlers: map<HandlerId, Handler>, h: HandlerId, at: Handler, r: PaymentRequest)
    requires h !in handlers
    ensures |Holders(handlers[h := at], r)| == |Holders(handlers, r)| + Once(at.request == r)
  {
    if at.request == r {
      assert Holders(handlers[h := at], r) == Holders(handlers, r) + {h};
    } else {
      assert Holders(handlers[h := at], r) == Holders(handlers, r);
    }
  }

  lemma HolderLeaves(handlers: map<HandlerId, Handler>, h: HandlerId, r: PaymentRequest)
    requires h in handlers
    ensures |Holders(handlers, r)| == |Holders(handlers - {h}, r)| + Once(handlers[h].request == r)
  {
    HolderJoins(handlers - {h}, h, handlers[h], r);
    assert (handlers - {h})[h := handlers[h]] == handlers;
  }

  // ----- preservation ---------------------------------------------------------------------------------------

  /** A new order starts with nothing published, held, lost or decided. */
  lemma CreateAccounts(c: Client, s: System, st: Step)
    requires BoxInv(s.requests) && OrdersInv(s) && FlowInv(s) && DeliveryInv(s)
    requires Enabled(c, s, st) && st.CreateOrder?
    ensures forall e | e in Next(c, s, st).requests.rows :: RequestAccounted(Next(c, s, st), e)
  {
    var t := Next(c, s, st);
    var r := PaymentRequest(st.orderId, st.userId, st.amount);
    InsertDelivers(s.requests, st.event, PAYMENT_REQUEST, r, st.now);
    assert Holders(s.handlers, r) == {} by {
      forall h | h in s.handlers ensures s.handlers[h].request != r { assert Genuine(s, s.handlers[h].request); }
    }
    forall o | o in s.inbox ensures o != st.orderId { assert Genuine(s, s.inbox[o].request); }
    assert r !in s.duplicates && r !in s.lostRequests;
    forall e | e in t.requests.rows ensures RequestAccounted(t, e) {
      if e != st.event { assert RequestAccounted(s, e); }
    }
  }

  lemma WorkerStepAccounts(c: Client, s: System, b: BoxStep, e: EventId)
    requires OwnPayload(s.requests, e) && Enabled(c, s, RequestStep(b)) && RequestAccounted(s, e)
    ensures
      var t := Next(c, s, RequestStep(b));
      e in t.requests.rows && RequestAccounted(t, e)
  {
    StepDelivers(s.requests, b, e);
    StepExtends(s.requests, b);
  }

  lemma DuplicateAccounts(s: System, t: System, e: EventId)
    requires OwnPayload(s.requests, e) && s.requests.queue != [] && RequestAccounted(s, e)
    requires t.requests == TakeMessage(s.requests) && t.handlers == s.handlers && t.inbox == s.inbox
    requires t.duplicates == s.duplicates + multiset{s.requests.queue[0]} && t.lostRequests == s.lostRequests
    ensures RequestAccounted(t, e)
  {
    TakeDelivers(s.requests, e);
  }

  lemma HandOverAccounts(s: System, t: System, h: HandlerId, e: EventId)
    requires OwnPayload(s.requests, e) && s.requests.queue != [] && h !in s.handlers && RequestAccounted(s, e)
    requires t.requests == TakeMessage(s.requests) && t.inbox == s.inbox
    requires t.handlers == s.handlers[h := Checked(s.requests.queue[0])]
    requires t.duplicates == s.duplicates && t.lostRequests == s.lostRequests
    ensures RequestAccounted(t, e)
  {
    TakeDelivers(s.requests, e);
    HolderJoins(s.handlers, h, Checked(s.requests.queue[0]), s.requests.rows[e].payload);
  }

  lemma TakeAccounts(c: Client, s: System, h: HandlerId, e: EventId)
    requires OwnPayload(s.requests, e) && Enabled(c, s, Take(h)) && RequestAccounted(s, e)
    ensures RequestAccounted(Next(c, s, Take(h)), e)
  {
    if s.requests.queue[0].orderId in s.inbox {
      DuplicateAccounts(s, Next(c, s, Take(h)), e);
    } else {
      HandOverAccounts(s, Next(c, s, Take(h)), h, e);
    }
  }

  lemma DropAccounts(c: Client, s: System, st: Step, e: EventId)
    requires Enabled(c, s, st) && (st.InsertConflict? || st.Abandon?)
    requires e in s.requests.rows && RequestAccounted(s, e)
    ensures e in Next(c, s, st).requests.rows && RequestAccounted(Next(c, s, st), e)
  {
    HolderLeaves(s.handlers, st.h, s.requests.rows[e].payload);
  }

  lemma CommitAccounts(c: Client, s: System, st: Step, e: EventId)
    requires Enabled(c, s, st) && st.Commit? && FirstCommit(s, st)
    requires OrdersInv(s) && Genuine(s, s.handlers[st.h].request)
    requires e in s.requests.rows && RequestAccounted(s, e)
    ensures e in Next(c, s, st).requests.rows && RequestAccounted(Next(c, s, st), e)
  {
    var q, r := s.handlers[st.h].request, s.requests.rows[e].payload;
    HolderLeaves(s.handlers, st.h, r);
    assert q == r <==> q.orderId == r.orderId;
  }

  lemma OtherStepsAccount(c: Client, s: System, st: Step, e: EventId)
    requires Enabled(c, s, st)
    requires !(st.CreateOrder? || st.RequestStep? || st.Take? || st.InsertConflict? || st.Abandon? || st.Commit?)
    requires e in s.requests.rows && RequestAccounted(s, e)
    ensures e in Next(c, s, st).requests.rows && RequestAccounted(Next(c, s, st), e)
  {
    match st {
      case Insert(h) =>
      case ReadAccount(h) =>
      case Reject(h) =>
      case PaymentThrows(h) =>
      case Debit(h) =>
      case _ =>
    }
    var t, r := Next(c, s, st), s.requests.rows[e].payload;
    assert t.requests == s.requests && t.inbox == s.inbox;
    assert Holders(t.handlers, r) == Holders(s.handlers, r);
  }

  lemma RequestsStayAccounted(c: Client, s: System, st: Step)
    requires BoxInv(s.requests) && OrdersInv(s) && FlowInv(s) && DeliveryInv(s)
    requires FirstCommit(s, st) && Enabled(c, s, st)
    ensures forall e | e in Next(c, s, st).requests.rows :: RequestAccounted(Next(c, s, st), e)
  {
    if st.CreateOrder? {
      CreateAccounts(c, s, st);
    } else {
      RequestsExtend(c, s, st);
      forall e | e in Next(c, s, st).requests.rows ensures RequestAccounted(Next(c, s, st), e) {
        assert RequestAccounted(s, e);
        RequestsOwnPayloads(s, e);
        if st.RequestStep? {
          WorkerStepAccounts(c, s, st.box, e);
        } else if st.Take? {
          TakeAccounts(c, s, st.h, e);
        } else if st.InsertConflict? || st.Abandon? {
          DropAccounts(c, s, st, e);
        } else if st.Commit? {
          CommitAccounts(c, s, st, e);
        } else {
          OtherStepsAccount(c, s, st, e);
        }
      }
    }
  }

  lemma CommitAccountsResults(c: Client, s: System, st: Step)
    requires BoxInv(s.results) && ResultsInv(s) && NoticesInv(s) && DeliveryInv(s)
    requires Enabled(c, s, st) && st.Commit? && FirstCommit(s, st)
    ensures forall e | e in Next(c, s, st).results.rows :: ResultAccounted(Next(c, s, st), e)
  {
    var t := Next(c, s, st);
    var p := ResultFor(s.handlers[st.h].request, s.handlers[st.h].success);
    InsertDelivers(s.results, st.result, PAYMENT_RESULT, p, st.when);
    assert NoticeFor(p) !in s.notices && p !in s.lostResults;
    forall e | e in t.results.rows ensures ResultAccounted(t, e) {
      if e != st.result { assert ResultAccounted(s, e); }
    }
  }

  lemma ResultWorkerAccounts(c: Client, s: System, b: BoxStep, e: EventId)
    requires OwnPayload(s.results, e) && Enabled(c, s, ResultStep(b)) && ResultAccounted(s, e)
    ensures
      var t := Next(c, s, ResultStep(b));
      e in t.results.rows && ResultAccounted(t, e)
  {
    StepDelivers(s.results, b, e);
    StepExtends(s.results, b);
  }

  lemma NotifyAccounts(c: Client, s: System, e: EventId)
    requires ResultsInv(s) && Enabled(c, s, Notify) && Traced(s.results, s.results.queue[0])
    requires e in s.results.rows && ResultAccounted(s, e)
    ensures ResultAccounted(Next(c, s, Notify), e)
  {
    ResultsOwnPayloads(s, e);
    TakeDelivers(s.results, e);
    var p, q := s.results.rows[e].payload, s.results.queue[0];
    var f :| f in s.results.rows && s.results.rows[f].payload == q;
    if p.orderId == q.orderId { ResultsOwnOrders(s, e, f); }
    assert NoticeFor(p) == NoticeFor(q) <==> p == q;
  }

  /** Steps of the other stages leave results, notices and their history alone. */
  lemma ResultSideFrame(c: Client, s: System, st: Step)
    requires Enabled(c, s, st) && !(st.Commit? || st.ResultStep? || st.Notify?)
    ensures Next(c, s, st).results == s.results && Next(c, s, st).notices == s.notices
    ensures Next(c, s, st).lostResults == s.lostResults
  {
    match st { case RequestStep(_) => case Take(_) => case Debit(_) => case _ => }
  }

  /** What the result side of a step relies on. */
  ghost predicate ResultSide(s: System, st: Step) {
    && BoxInv(s.results) && ResultsInv(s) && NoticesInv(s) && DeliveryInv(s) && FirstCommit(s, st)
    && (s.results.queue != [] ==> Traced(s.results, s.results.queue[0]))
  }

  lemma ResultsStayAccounted(c: Client, s: System, st: Step)
    requires ResultSide(s, st) && Enabled(c, s, st)
    ensures forall e | e in Next(c, s, st).results.rows :: ResultAccounted(Next(c, s, st), e)
  {
    if st.Commit? {
      CommitAccountsResults(c, s, st);
    } else {
      if st.ResultStep? {
        StepExtends(s.results, st.box);
      } else if !st.Notify? {
        ResultSideFrame(c, s, st);
      }
      forall e | e in Next(c, s, st).results.rows ensures ResultAccounted(Next(c, s, st), e) {
        assert ResultAccounted(s, e);
        ResultsOwnPayloads(s, e);
        if st.ResultStep? { ResultWorkerAccounts(c, s, st.box, e); }
        if st.Notify? { NotifyAccounts(c, s, e); }
      }
    }
  }

  /** Orders are never removed, and neither are inbox rows. */
  lemma TablesGrow(c: Client, s: System, st: Step)
    requires Enabled(c, s, st)
    ensures s.orders.Keys <= Next(c, s, st).orders.Keys && s.inbox.Keys <= Next(c, s, st).inbox.Keys
  {
    match st { case RequestStep(_) => case ResultStep(_) => case Take(_) => case Debit(_) => case _ => }
  }

  lemma RequestSideFrame(c: Client, s: System, st: Step)
    requires Enabled(c, s, st) && !(st.RequestStep? || st.Take? || st.InsertConflict? || st.Abandon?)
    ensures Next(c, s, st).duplicates == s.duplicates && Next(c, s, st).lostRequests == s.lostRequests
  {
    match st { case ResultStep(_) => case Debit(_) => case Commit(_, _, _) => case _ => }
  }

  /** Queued and held requests are for committed orders. */
  ghost predicate OnlyOrders(s: System) {
    && (forall m | m in s.requests.queue :: m.orderId in s.orders)
    && (forall h | h in s.handlers :: s.handlers[h].request.orderId in s.orders)
  }

  lemma OnlyOrdersHolds(s: System)
    requires BoxInv(s.requests) && OrdersInv(s) && FlowInv(s)
    ensures OnlyOrders(s)
  {
    forall m | m in s.requests.queue ensures m.orderId in s.orders {
      assert Traced(s.requests, m);
    }
  }

  lemma DropsAreGenuine(c: Client, s: System, st: Step)
    requires OnlyOrders(s) && Enabled(c, s, st)
    requires st.RequestStep? || st.Take? || st.InsertConflict? || st.Abandon?
    ensures forall r | r in Next(c, s, st).duplicates :: r in s.duplicates || r.orderId in s.inbox
    ensures forall r | r in Next(c, s, st).lostRequests :: r in s.lostRequests || r.orderId in s.orders
  {
  }

  lemma RequestHistoryKept(c: Client, s: System, st: Step)
    requires BoxInv(s.requests) && OrdersInv(s) && FlowInv(s) && DeliveryInv(s) && Enabled(c, s, st)
    ensures forall r | r in Next(c, s, st).duplicates :: r.orderId in Next(c, s, st).inbox
    ensures forall r | r in Next(c, s, st).lostRequests :: r.orderId in Next(c, s, st).orders
  {
    TablesGrow(c, s, st);
    OnlyOrdersHolds(s);
    if st.RequestStep? || st.Take? || st.InsertConflict? || st.Abandon? {
      DropsAreGenuine(c, s, st);
    } else {
      RequestSideFrame(c, s, st);
    }
  }

  lemma ResultHistoryKept(c: Client, s: System, st: Step)
    requires BoxInv(s.results) && ResultsInv(s) && DeliveryInv(s) && Enabled(c, s, st)
    ensures forall p | p in Next(c, s, st).lostResults :: p.orderId in Next(c, s, st).inbox
  {
    TablesGrow(c, s, st);
    if st.ResultStep? {
      if st.box.Lose? { assert Traced(s.results, s.results.queue[st.box.i]); }
    } else if !st.Commit? && !st.Notify? {
      ResultSideFrame(c, s, st);
    }
  }

  lemma StepKeepsDelivery(c: Client, s: System, st: Step)
    requires Inv(c, s) && DeliveryInv(s) && Enabled(c, s, st)
    ensures DeliveryInv(Next(c, s, st))
  {
    CommitsAreFirst(c, s, st);
    QueueTraceable(s);
    RequestsStayAccounted(c, s, st);
    ResultsStayAccounted(c, s, st);
    RequestHistoryKept(c, s, st);
    ResultHistoryKept(c, s, st);
  }

  lemma {:induction false} RunKeepsDelivery(c: Client, s: System, steps: seq<Step>)
    requires Inv(c, s) && DeliveryInv(s) && IsRun(c, s, steps)
    ensures DeliveryInv(Exec(c, s, steps))
    decreases |steps|
  {
    if steps != [] {
      var front := steps[..|steps| - 1];
      RunKeepsInv(c, s, front);
      RunKeepsDelivery(c, s, front);
      StepKeepsDelivery(c, Exec(c, s, front), steps[|steps| - 1]);
    }
  }

  lemma ReachableDelivery(c: Client, s: System)
    requires Reachable(c, s)
    ensures DeliveryInv(s)
  {
    var steps :| IsRun(c, START, steps) && Exec(c, START, steps) == s;
    StartInv(c);
    RunKeepsDelivery(c, START, steps);
  }

  // ----- what it means once everything has drained ------------------------------------------------------------

  ghost predicate BoxIdle<M>(b: Box<M>) {
    b.batches == map[] && b.queue == [] && (forall e | e in b.rows :: b.rows[e].status.Processed?)
  }

  ghost predicate Quiescent(s: System) {
    BoxIdle(s.requests) && s.handlers == map[] && BoxIdle(s.results)
  }

  /** With faults: once drained, an order was decided exactly if fewer copies of its request were lost than
      were published. */
  lemma DecidedUnlessLost(c: Client, s: System, e: EventId)
    requires Reachable(c, s) && Quiescent(s) && e in s.requests.rows
    ensures e in s.requests.sent
    ensures s.requests.rows[e].payload.orderId in s.inbox
       <==> multiset(s.requests.sent)[e] > s.lostRequests[s.requests.rows[e].payload]
  {
    ReachableInv(c, s);
    ReachableDelivery(c, s);
    assert RequestAccounted(s, e);
    assert Holders(s.handlers, s.requests.rows[e].payload) == {};
  }

  /** And it was notified once for each copy of its result that was not lost. */
  lemma NotifiedPerCopy(c: Client, s: System, e: EventId)
    requires Reachable(c, s) && Quiescent(s) && e in s.results.rows
    ensures e in s.results.sent
    ensures multiset(s.results.sent)[e]
         == multiset(s.notices)[NoticeFor(s.results.rows[e].payload)] + s.lostResults[s.results.rows[e].payload]
  {
    ReachableInv(c, s);
    ReachableDelivery(c, s);
    assert ResultAccounted(s, e);
  }
}
