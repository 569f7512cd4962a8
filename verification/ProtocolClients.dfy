/**
 * How the guarantees depend on what the database client does with a transaction opened inside another:
 * exact conditions, with the runs that show they cannot be relaxed.
 */
module ProtocolClients {
  import opened Collections
  import opened Outbox
  import opened Protocol
  import opened Ledger
  import opened ProtocolDelivery
  import opened ProtocolSafety
  import opened ProtocolTheorems

  // ----- one handler that nothing interrupts -----------------------------------------------------------

  /** What `process_payment` answers when nothing interferes. */
  predicate PaymentSucceeds(c: Client, accounts: map<UserId, Account>, r: PaymentRequest) {
    !c.Refuses? && r.amount > 0 && r.userId in accounts
      && accounts[r.userId].balance >= r.amount && accounts[r.userId].version < MAX_VERSION
  }

  function AfterDecision(c: Client, s: System, h: HandlerId): System
    requires s.requests.queue != []
  {
    var r := s.requests.queue[0];
    var ok := PaymentSucceeds(c, s.accounts, r);
    var t := s.(requests := TakeMessage(s.requests), handlers := s.handlers[h := Decided(r, ok)]);
    if ok && c.Standalone? then Charge(t, r) else t
  }

  /** A handler can take a new request and run uninterrupted: no other one, however many are open, holds the
      key of its order or the account it would debit. */
  ghost predicate NewRequest(c: Client, s: System, h: HandlerId) {
    && h !in s.handlers && s.requests.queue != [] && s.requests.queue[0].orderId !in s.inbox
    && (forall g :: !HoldsKey(s, g, s.requests.queue[0].orderId))
    && (forall g :: !HoldsAccount(c, s, g, s.requests.queue[0].userId))
  }

  /** The state of an uninterrupted handler that has taken the request and stands at `at`. */
  function HandlerAt(s: System, h: HandlerId, at: Handler): System
    requires s.requests.queue != []
  {
    s.(requests := TakeMessage(s.requests), handlers := s.handlers[h := at])
  }

  lemma HandlerChecks(c: Client, s: System, h: HandlerId)
    requires NewRequest(c, s, h)
    ensures Reaches(c, s, HandlerAt(s, h, Checked(s.requests.queue[0])))
  {
    ReachesItself(c, s);
    ReachesStep(c, s, s, Take(h));
    assert Next(c, s, Take(h)) == HandlerAt(s, h, Checked(s.requests.queue[0]));
  }

  lemma HandlerInserts(c: Client, s: System, h: HandlerId)
    requires NewRequest(c, s, h)
    ensures Reaches(c, s, HandlerAt(s, h, Inserted(s.requests.queue[0])))
  {
    var r := s.requests.queue[0];
    HandlerChecks(c, s, h);
    forall g ensures !HoldsKey(HandlerAt(s, h, Checked(r)), g, r.orderId) { assert !HoldsKey(s, g, r.orderId); }
    ReachesStep(c, s, HandlerAt(s, h, Checked(r)), Insert(h));
    Overwritten(s.handlers, h, Checked(r), Inserted(r));
  }

  lemma HandlerThrows(c: Client, s: System, h: HandlerId)
    requires NewRequest(c, s, h) && s.requests.queue[0].amount > 0
    ensures Reaches(c, s, HandlerAt(s, h, Decided(s.requests.queue[0], false)))
  {
    var r := s.requests.queue[0];
    HandlerInserts(c, s, h);
    ReachesStep(c, s, HandlerAt(s, h, Inserted(r)), PaymentThrows(h));
    Overwritten(s.handlers, h, Inserted(r), Decided(r, false));
  }

  lemma HandlerDeclines(c: Client, s: System, h: HandlerId)
    requires NewRequest(c, s, h)
    requires s.requests.queue[0].amount <= 0 || c.Refuses? || s.requests.queue[0].userId !in s.accounts
    ensures Reaches(c, s, HandlerAt(s, h, Decided(s.requests.queue[0], false)))
  {
    var r := s.requests.queue[0];
    if r.amount > 0 && c.Refuses? {
      HandlerThrows(c, s, h);
    } else {
      HandlerInserts(c, s, h);
      ReachesStep(c, s, HandlerAt(s, h, Inserted(r)), Reject(h));
      Overwritten(s.handlers, h, Inserted(r), Decided(r, false));
    }
  }

  lemma HandlerReads(c: Client, s: System, h: HandlerId)
    requires NewRequest(c, s, h) && !c.Refuses?
    requires s.requests.queue[0].amount > 0 && s.requests.queue[0].userId in s.accounts
    ensures Reaches(c, s, HandlerAt(s, h, HasRead(s.requests.queue[0], s.accounts[s.requests.queue[0].userId])))
  {
    var r := s.requests.queue[0];
    HandlerInserts(c, s, h);
    ReachesStep(c, s, HandlerAt(s, h, Inserted(r)), ReadAccount(h));
    Overwritten(s.handlers, h, Inserted(r), HasRead(r, s.accounts[r.userId]));
  }

  lemma HandlerDebits(c: Client, s: System, h: HandlerId)
    requires NewRequest(c, s, h) && !c.Refuses?
    requires s.requests.queue[0].amount > 0 && s.requests.queue[0].userId in s.accounts
    ensures Reaches(c, s, AfterDecision(c, s, h))
  {
    var r := s.requests.queue[0];
    HandlerReads(c, s, h);
    DebitAtOnce(c, s, h);
    ReachesStep(c, s, HandlerAt(s, h, HasRead(r, s.accounts[r.userId])), Debit(h));
  }

  lemma DebitAtOnce(c: Client, s: System, h: HandlerId)
    requires NewRequest(c, s, h) && !c.Refuses?
    requires s.requests.queue[0].amount > 0 && s.requests.queue[0].userId in s.accounts
    ensures
      var r := s.requests.queue[0];
      var read := HandlerAt(s, h, HasRead(r, s.accounts[r.userId]));
      Enabled(c, read, Debit(h)) && Next(c, read, Debit(h)) == AfterDecision(c, s, h)
  {
    var r := s.requests.queue[0];
    forall g ensures !HoldsAccount(c, HandlerAt(s, h, HasRead(r, s.accounts[r.userId])), g, r.userId) {
      assert !HoldsAccount(c, s, g, r.userId);
    }
    Overwritten(s.handlers, h, HasRead(r, s.accounts[r.userId]), Decided(r, PaymentSucceeds(c, s.accounts, r)));
  }

  /** An uninterrupted handler reaches the decision `PaymentSucceeds` predicts. */
  lemma HandlerDecides(c: Client, s: System, h: HandlerId)
    requires NewRequest(c, s, h)
    ensures Reaches(c, s, AfterDecision(c, s, h))
  {
    var r := s.requests.queue[0];
    if r.amount <= 0 || c.Refuses? || r.userId !in s.accounts {
      HandlerDeclines(c, s, h);
    } else {
      HandlerDebits(c, s, h);
    }
  }

  // ----- an order that pays ------------------------------------------------------------------------------

  const ORDER: OrderId := "o"
  const EVENT: EventId := "e"
  const USER: UserId := "u"
  const REQUEST: PaymentRequest := PaymentRequest("o", "u", 5)

  const ORDERED: System := START.(
    orders := map[ORDER := Order(USER, 5, "", "NEW", 0)],
    requests := Box(PAYMENT_REQUEST, map[EVENT := Row(PAYMENT_REQUEST, REQUEST, Pending, 0)], map[], [], []))

  const OPENED: System := ORDERED.(accounts := map[USER := Account(0, 0)], ledger := [Opened(USER)])

  /** One order of 5 cents by a user who deposited 10. */
  const FUNDED: System := ORDERED.(
    accounts := map[USER := Account(10, 1)], ledger := [Opened(USER), Deposited(USER, 10)])

  /** Its request was published `n` times by workers that rolled back afterwards. */
  function PublishedTimes(n: nat): System {
    FUNDED.(requests := FUNDED.requests.(queue := seq(n, i => REQUEST), sent := seq(n, i => EVENT)))
  }

  lemma ReachFunded(c: Client)
    ensures Reachable(c, FUNDED)
  {
    ReachOpened(c);
    OpenedThenFunded(c);
    ReachesStep(c, START, OPENED, Deposit(USER, 10));
  }

  lemma OpenedThenFunded(c: Client)
    ensures Enabled(c, OPENED, Deposit(USER, 10)) && Next(c, OPENED, Deposit(USER, 10)) == FUNDED
  {
    assert OPENED.ledger + [Deposited(USER, 10)] == FUNDED.ledger;
    assert OPENED.accounts[USER := Account(10, 1)] == FUNDED.accounts;
  }

  lemma ReachOpened(c: Client)
    ensures Reachable(c, OPENED)
  {
    ReachOrdered(c);
    ReachesStep(c, START, ORDERED, OpenAccount(USER));
    assert Next(c, ORDERED, OpenAccount(USER)) == OPENED;
  }

  lemma ReachOrdered(c: Client)
    ensures Reachable(c, ORDERED)
  {
    ReachesItself(c, START);
    ReachesStep(c, START, START, CreateOrder(ORDER, EVENT, USER, 5, "", 0));
    assert Next(c, START, CreateOrder(ORDER, EVENT, USER, 5, "", 0)) == ORDERED;
  }

  /** A worker that publishes and then rolls back leaves the event PENDING, to be published again. */
  lemma {:induction false} ReachPublished(c: Client, n: nat)
    ensures Reachable(c, PublishedTimes(n))
  {
    if n == 0 {
      ReachFunded(c);
      assert PublishedTimes(0) == FUNDED;
    } else {
      ReachPublished(c, n - 1);
      PublishAndRollBack(c, PublishedTimes(n - 1));
      assert PublishedTimes(n).requests.queue == PublishedTimes(n - 1).requests.queue + [REQUEST];
      assert PublishedTimes(n).requests.sent == PublishedTimes(n - 1).requests.sent + [EVENT];
    }
  }

  lemma PublishAndRollBack(c: Client, s: System)
    requires Reachable(c, s)
    requires s.requests.rows == FUNDED.requests.rows && s.requests.route == PAYMENT_REQUEST
    requires s.requests.batches == map[]
    ensures Reachable(c, s.(requests := s.requests.(queue := s.requests.queue + [REQUEST],
                                                    sent := s.requests.sent + [EVENT])))
  {
    var b := s.requests;
    assert Available(b.rows, Locked(b.batches)) == {EVENT};
    assert IsBatch(b.rows, Locked(b.batches), [EVENT]);
    ReachesStep(c, START, s, RequestStep(Begin(0, [EVENT])));
    var begun := s.(requests := b.(batches := map[0 := Batch([EVENT], 0, {}, false)]));
    assert Next(c, s, RequestStep(Begin(0, [EVENT]))) == begun;
    PublishThenRollBack(c, begun);
  }

  lemma PublishThenRollBack(c: Client, s: System)
    requires Reachable(c, s)
    requires s.requests.rows == FUNDED.requests.rows && s.requests.route == PAYMENT_REQUEST
    requires s.requests.batches == map[0 := Batch([EVENT], 0, {}, false)]
    ensures Reachable(c, s.(requests := s.requests.(batches := map[], queue := s.requests.queue + [REQUEST],
                                                    sent := s.requests.sent + [EVENT])))
  {
    ReachesStep(c, START, s, RequestStep(Outbox.Publish(0)));
    var published := Next(c, s, RequestStep(Outbox.Publish(0)));
    ReachesStep(c, START, published, RequestStep(Rollback(0)));
    assert published.requests.batches - {0} == map[];
  }

  // ----- an order that is never decided -------------------------------------------------------------------------

  const TAKEN: System := ORDERED.(requests := ORDERED.requests.(batches := map[0 := Batch([EVENT], 0, {}, false)]))

  const MARKED: System := ORDERED.(requests := ORDERED.requests.(
    batches := map[0 := Batch([EVENT], 1, {EVENT}, false)], queue := [REQUEST], sent := [EVENT]))

  lemma ReachTaken(c: Client)
    ensures Reachable(c, TAKEN)
  {
    var b := ORDERED.requests;
    ReachOrdered(c);
    assert Available(b.rows, Locked(b.batches)) == {EVENT};
    assert IsBatch(b.rows, Locked(b.batches), [EVENT]);
    ReachesStep(c, START, ORDERED, RequestStep(Begin(0, [EVENT])));
    assert Next(c, ORDERED, RequestStep(Begin(0, [EVENT]))) == TAKEN;
  }

  lemma ReachMarked(c: Client)
    ensures Reachable(c, MARKED)
  {
    ReachTaken(c);
    TakenThenMarked(c);
    ReachesStep(c, START, TAKEN, RequestStep(Outbox.Publish(0)));
  }

  lemma TakenThenMarked(c: Client)
    ensures Enabled(c, TAKEN, RequestStep(Outbox.Publish(0)))
    ensures Next(c, TAKEN, RequestStep(Outbox.Publish(0))) == MARKED
  {
    assert {} + {EVENT} == {EVENT} && TAKEN.requests.queue + [REQUEST] == [REQUEST];
    assert TAKEN.requests.sent + [EVENT] == [EVENT];
    assert TAKEN.requests.batches[0 := Batch([EVENT], 1, {EVENT}, false)] == MARKED.requests.batches;
  }

  /** A consumer that loses the only copy of a request leaves everything drained and the order undecided for
      ever, so delivery cannot be promised of runs with faults. */
  lemma OrderCanBeLost(c: Client) returns (s: System)
    ensures Reachable(c, s) && Quiescent(s) && ORDER in s.orders && s.inbox == map[]
  {
    ReachMarked(c);
    ReachesStep(c, START, MARKED, RequestStep(CommitBatch(0)));
    var committed := Next(c, MARKED, RequestStep(CommitBatch(0)));
    assert committed.requests.batches == map[];
    ReachesStep(c, START, committed, RequestStep(Lose(0)));
    s := Next(c, committed, RequestStep(Lose(0)));
    assert s.requests.queue == [];
  }

  // ----- exact conditions ----------------------------------------------------------------------------------

  /** A debit on a connection of its own outlives the crash of its handler, and the duplicate is charged again. */
  lemma ChargeThenCrash(s: System)
    requires Reachable(Standalone, s) && NewRequest(Standalone, s, 0)
    requires PaymentSucceeds(Standalone, s.accounts, s.requests.queue[0])
    ensures Reachable(Standalone, ChargedAndCrashed(s))
  {
    var t := AfterDecision(Standalone, s, 0);
    HandlerDecides(Standalone, s, 0);
    ReachesJoin(Standalone, START, s, t);
    CrashAfterCharge(s);
    ReachesStep(Standalone, START, t, Abandon(0));
  }

  lemma CrashAfterCharge(s: System)
    requires NewRequest(Standalone, s, 0) && PaymentSucceeds(Standalone, s.accounts, s.requests.queue[0])
    ensures
      var t := AfterDecision(Standalone, s, 0);
      Enabled(Standalone, t, Abandon(0)) && Next(Standalone, t, Abandon(0)) == ChargedAndCrashed(s)
  {
    Overwritten(s.handlers, 0, Decided(s.requests.queue[0], true), Decided(s.requests.queue[0], true));
  }

  function ChargedAndCrashed(s: System): System
    requires s.requests.queue != [] && s.requests.queue[0].userId in s.accounts
  {
    var r := s.requests.queue[0];
    Charge(s, r).(requests := TakeMessage(s.requests), lostRequests := s.lostRequests + multiset{r})
  }

  lemma {:induction false} ReachesJoin(c: Client, a: System, b: System, d: System)
    requires Reaches(c, a, b) && Reaches(c, b, d)
    ensures Reaches(c, a, d)
  {
    var steps :| IsRun(c, b, steps) && Exec(c, b, steps) == d;
    ReachesAlong(c, a, b, steps);
  }

  lemma {:induction false} ReachesAlong(c: Client, a: System, b: System, steps: seq<Step>)
    requires Reaches(c, a, b) && IsRun(c, b, steps)
    ensures Reaches(c, a, Exec(c, b, steps))
    decreases |steps|
  {
    if steps != [] {
      var front := steps[..|steps| - 1];
      ReachesAlong(c, a, b, front);
      ReachesStep(c, a, Exec(c, b, front), steps[|steps| - 1]);
    }
  }

  lemma StandaloneChargesTwice() returns (s: System)
    ensures Reachable(Standalone, s) && !AtMostOnce(s)
  {
    ReachPublished(Standalone, 2);
    var a := PublishedTimes(2);
    ChargeThenCrash(a);
    var b := ChargedAndCrashed(a);
    ChargeThenCrash(b);
    s := ChargedAndCrashed(b);
    Appended(FUNDED.ledger, Debited(USER, 5, ORDER));
    Appended(b.ledger, Debited(USER, 5, ORDER));
    assert DebitsFor(s.ledger, ORDER) >= 2;
  }

  /** At-most-once charging holds in all reachable states exactly if the debit does not commit on its own. */
  lemma AtMostOnceExactly(c: Client)
    ensures (forall s | Reachable(c, s) :: AtMostOnce(s)) <==> !c.Standalone?
  {
    if c.Standalone? {
      var s := StandaloneChargesTwice();
    } else {
      forall s | Reachable(c, s) ensures AtMostOnce(s) {
        forall o ensures DebitsFor(s.ledger, o) <= 1 { ChargedExactlyOnce(c, s, o); }
      }
    }
  }

  lemma StandaloneLeaks() returns (s: System)
    ensures Reachable(Standalone, s) && !Conserved(s, USER)
    ensures DebitsFor(s.ledger, ORDER) == 1 && NewRequest(Standalone, s, 0) && s.requests.queue[0] == REQUEST
    ensures s.results == START.results && s.inbox == map[]
  {
    ReachPublished(Standalone, 2);
    var a := PublishedTimes(2);
    ChargeThenCrash(a);
    s := ChargedAndCrashed(a);
    LedgerOfLeak();
    assert s.ledger == FUNDED.ledger + [Debited(USER, 5, ORDER)];
    assert s.inbox.Keys == {};
  }

  lemma LedgerOfLeak()
    ensures
      var l := FUNDED.ledger + [Debited(USER, 5, ORDER)];
      DepositSum(l, USER) == 10 && DebitsFor(l, ORDER) == 1
  {
    Appended(FUNDED.ledger, Debited(USER, 5, ORDER));
    Appended([Opened(USER)], Deposited(USER, 10));
    assert FUNDED.ledger == [Opened(USER)] + [Deposited(USER, 10)];
    Appended([], Opened(USER));
    assert [Opened(USER)] == [] + [Opened(USER)];
  }

  /** Money is conserved in all reachable states exactly if the debit does not commit on its own. */
  lemma ConservationExactly(c: Client)
    ensures (forall s, u | Reachable(c, s) :: Conserved(s, u)) <==> !c.Standalone?
  {
    if c.Standalone? {
      var s := StandaloneLeaks();
    } else {
      forall s, u | Reachable(c, s) ensures Conserved(s, u) { Conservation(c, s, u); }
    }
  }

  ghost predicate OnlyResult(s: System, e: EventId, p: PaymentResult) {
    s.results == START.results.(rows := map[e := Row(PAYMENT_RESULT, p, Pending, 0)])
  }

  lemma ResultSelected(c: Client, s: System, e: EventId, p: PaymentResult)
    requires Reachable(c, s) && OnlyResult(s, e, p)
    ensures Reachable(c, s.(results := s.results.(batches := map[0 := Batch([e], 0, {}, false)])))
  {
    var b := s.results;
    assert Available(b.rows, Locked(b.batches)) == {e};
    assert IsBatch(b.rows, Locked(b.batches), [e]);
    ReachesStep(c, START, s, ResultStep(Begin(0, [e])));
  }

  /** The one result event of a state is published and consumed. */
  lemma ResultAnnounced(c: Client, s: System, e: EventId, p: PaymentResult) returns (t: System)
    requires Reachable(c, s) && OnlyResult(s, e, p)
    ensures Reachable(c, t) && NoticeFor(p) in t.notices && t.ledger == s.ledger
  {
    var begun := s.(results := s.results.(batches := map[0 := Batch([e], 0, {}, false)]));
    ResultSelected(c, s, e, p);
    ReachesStep(c, START, begun, ResultStep(Outbox.Publish(0)));
    var published := Next(c, begun, ResultStep(Outbox.Publish(0)));
    assert published.results.queue == [p];
    ReachesStep(c, START, published, Notify);
    t := Next(c, published, Notify);
  }

  /** Charged by a handler that crashed, refused by the one that handled the duplicate. */
  lemma StandaloneMisinforms() returns (s: System, n: Notice)
    ensures Reachable(Standalone, s) && n in s.notices && !Truthful(s, n)
  {
    var a := StandaloneLeaks();
    HandlerThrows(Standalone, a, 0);
    var d := HandlerAt(a, 0, Decided(REQUEST, false));
    ReachesJoin(Standalone, START, a, d);
    ReachesStep(Standalone, START, d, Commit(0, "r", 0));
    var committed := Next(Standalone, d, Commit(0, "r", 0));
    s := ResultAnnounced(Standalone, committed, "r", ResultFor(REQUEST, false));
    n := NoticeFor(ResultFor(REQUEST, false));
  }

  /** Notifications tell the truth in all reachable states exactly if the debit does not commit on its own. */
  lemma TruthExactly(c: Client)
    ensures (forall s, n | Reachable(c, s) && n in s.notices :: Truthful(s, n)) <==> !c.Standalone?
  {
    if c.Standalone? {
      var s, n := StandaloneMisinforms();
    } else {
      forall s, n | Reachable(c, s) && n in s.notices ensures Truthful(s, n) { NoticesTellTheTruth(c, s, n); }
    }
  }

  lemma SomeOrderPaid(c: Client) returns (s: System)
    requires !c.Refuses?
    ensures Reachable(c, s) && IsPaid(s, ORDER)
  {
    ReachPublished(c, 1);
    var a := PublishedTimes(1);
    var t := AfterDecision(c, a, 0);
    HandlerDecides(c, a, 0);
    ReachesJoin(c, START, a, t);
    ReachesStep(c, START, t, Commit(0, "r", 0));
    s := Next(c, t, Commit(0, "r", 0));
  }

  /** Some order can be paid exactly if the client lets the debit happen at all. */
  lemma PayableExactly(c: Client)
    ensures (exists s, o :: Reachable(c, s) && IsPaid(s, o)) <==> !c.Refuses?
  {
    if c.Refuses? {
      forall s, o | Reachable(c, s) ensures !IsPaid(s, o) { ReachableInv(c, s); }
    } else {
      var s := SomeOrderPaid(c);
    }
  }
}
