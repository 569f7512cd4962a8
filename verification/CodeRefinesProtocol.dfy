/**
 * The services' methods, run without interruption, are runs of the payment protocol; so everything proved
 * of the protocol's reachable states holds of what the code commits.
 */
module CodeRefinesProtocol {
  import opened Collections
  import opened Outbox
  import opened OutboxProcessing
  import opened Protocol
  import opened ProtocolClients
  import opened OrdersService
  import opened PaymentsDatabase
  import opened PaymentsService

  // ----- outbox passes -------------------------------------------------------------------------------------

  lemma {:induction false} RequestWorkerLifts(c: Client, s: System, steps: seq<BoxStep>)
    requires IsBoxRun(s.requests, steps)
    ensures Reaches(c, s, s.(requests := BoxExec(s.requests, steps)))
    decreases |steps|
  {
    if steps == [] {
      ReachesItself(c, s);
    } else {
      var front, last := steps[..|steps| - 1], steps[|steps| - 1];
      RequestWorkerLifts(c, s, front);
      ReachesStep(c, s, s.(requests := BoxExec(s.requests, front)), RequestStep(last));
    }
  }

  lemma {:induction false} ResultWorkerLifts(c: Client, s: System, steps: seq<BoxStep>)
    requires IsBoxRun(s.results, steps)
    ensures Reaches(c, s, s.(results := BoxExec(s.results, steps)))
    decreases |steps|
  {
    if steps == [] {
      ReachesItself(c, s);
    } else {
      var front, last := steps[..|steps| - 1], steps[|steps| - 1];
      ResultWorkerLifts(c, s, front);
      ReachesStep(c, s, s.(results := BoxExec(s.results, front)), ResultStep(last));
    }
  }

  /** A pass of the orders worker, as `ProcessPendingEvents` computes it, is a run of the protocol. */
  lemma RequestPassReaches(
    c: Client, s: System, w: WorkerId, events: seq<EventId>, outcome: EventId -> Outcome, commits: bool)
    requires w !in s.requests.batches && IsBatch(s.requests.rows, Locked(s.requests.batches), events)
    ensures Reaches(c, s, s.(requests := Pass(s.requests, events, outcome, commits)))
  {
    var steps := PassIsRun(s.requests, w, events, outcome, commits);
    RequestWorkerLifts(c, s, steps);
  }

  /** The same for the payments worker. */
  lemma ResultPassReaches(
    c: Client, s: System, w: WorkerId, events: seq<EventId>, outcome: EventId -> Outcome, commits: bool)
    requires w !in s.results.batches && IsBatch(s.results.rows, Locked(s.results.batches), events)
    ensures Reaches(c, s, s.(results := Pass(s.results, events, outcome, commits)))
  {
    var steps := PassIsRun(s.results, w, events, outcome, commits);
    ResultWorkerLifts(c, s, steps);
  }

  // ----- orders and accounts ---------------------------------------------------------------------------------

  ghost predicate HasOrderTables(s: System, t: OrderTables) {
    s.orders == t.orders && s.requests.rows == t.events
  }

  /** `CreateOrder`, whatever fails in it, is a run of the protocol that ends with the tables it commits. */
  lemma OrderReaches(c: Client, s: System, t: OrderTables, n: NewOrder, fault: OrderFault)
    requires HasOrderTables(s, t)
    ensures
      var after := Placed(t, n, fault);
      Reaches(c, s, s.(orders := after.orders, requests := s.requests.(rows := after.events)))
  {
    ReachesItself(c, s);
    if OrderCommits(t, n, fault) {
      ReachesStep(c, s, s, CreateOrder(n.orderId, n.eventId, n.userId, n.amount, n.description, n.now));
    }
  }

  /** The service accepts an order exactly if nothing fails in it and the protocol can create it, in every state
      with these tables; and then, and only then, the order is new in the table. */
  lemma OrderAcceptedExactly(c: Client, s: System, t: OrderTables, n: NewOrder, fault: OrderFault)
    requires HasOrderTables(s, t)
    ensures
      var st := CreateOrder(n.orderId, n.eventId, n.userId, n.amount, n.description, n.now);
      var accepted := fault.NoOrderFault? && Enabled(c, s, st);
      && (OrderCommits(t, n, fault) <==> accepted)
      && (n.orderId in Placed(t, n, fault).orders <==> n.orderId in t.orders || accepted)
  {
  }

  ghost predicate HasTables(s: System, t: Tables) {
    s.accounts == t.accounts && s.inbox == t.inbox && s.results.rows == t.outbox
  }

  /** Opening an account is one step. */
  lemma AccountReaches(c: Client, s: System, t: Tables, u: UserId)
    requires HasTables(s, t) && u !in t.accounts
    ensures exists t' :: Reaches(c, s, t') && HasTables(t', t.(accounts := t.accounts[u := Account(0, 0)]))
  {
    ReachesItself(c, s);
    ReachesStep(c, s, s, OpenAccount(u));
    assert HasTables(Next(c, s, OpenAccount(u)), t.(accounts := t.accounts[u := Account(0, 0)]));
  }

  /** A successful deposit is one step when no debit holds the account. */
  lemma DepositReaches(c: Client, s: System, t: Tables, u: UserId, amount: int)
    requires HasTables(s, t) && amount > 0 && u in t.accounts
    requires t.accounts[u].balance + amount <= MAX_CENTS && t.accounts[u].version < MAX_VERSION
    requires forall h :: !HoldsAccount(c, s, h, u)
    ensures
      var a := Account(t.accounts[u].balance + amount, t.accounts[u].version + 1);
      exists t' :: Reaches(c, s, t') && HasTables(t', t.(accounts := t.accounts[u := a]))
  {
    ReachesItself(c, s);
    ReachesStep(c, s, s, Deposit(u, amount));
    DepositTables(c, s, u, amount);
  }

  lemma DepositTables(c: Client, s: System, u: UserId, amount: int)
    requires Enabled(c, s, Deposit(u, amount))
    ensures
      var a := Account(s.accounts[u].balance + amount, s.accounts[u].version + 1);
      var s' := Next(c, s, Deposit(u, amount));
      s'.accounts == s.accounts[u := a] && s'.inbox == s.inbox && s'.results == s.results
  {
  }

  // ----- the inbox handler --------------------------------------------------------------------------------------

  /** What became of a consumed message: it decided its order, was dropped as a duplicate, or was lost. */
  datatype Fate = Decides | Duplicate | Lost

  /** The handler is gone, its message has met this fate, these tables are committed, and other handlers untouched. */
  ghost predicate ReachesTables(c: Client, s: System, t: Tables, fate: Fate)
    requires s.requests.queue != []
  {
    var r := s.requests.queue[0];
    exists s' :: Reaches(c, s, s') && HasTables(s', t)
      && s'.requests == TakeMessage(s.requests) && s'.handlers == s.handlers
      && s'.duplicates == (if fate.Duplicate? then s.duplicates + multiset{r} else s.duplicates)
      && s'.lostRequests == (if fate.Lost? then s.lostRequests + multiset{r} else s.lostRequests)
  }

  lemma DuplicateReaches(c: Client, s: System, t: Tables, h: HandlerId)
    requires s.requests.queue != [] && h !in s.handlers && HasTables(s, t) && s.requests.queue[0].orderId in t.inbox
    ensures ReachesTables(c, s, t, Duplicate)
  {
    ReachesItself(c, s);
    ReachesStep(c, s, s, Take(h));
    assert HasTables(Next(c, s, Take(h)), t);
  }

  ghost predicate SameHistory(s: System, t: System) {
    t.lostRequests == s.lostRequests && t.duplicates == s.duplicates
  }

  /** A handler standing somewhere crashes. */
  lemma CrashReaches(c: Client, s: System, t: Tables, at: System, h: HandlerId, where: Handler)
    requires s.requests.queue != [] && h !in s.handlers && Reaches(c, s, at) && HasTables(at, t)
    requires at.requests == TakeMessage(s.requests) && at.handlers == s.handlers[h := where]
    requires where.request == s.requests.queue[0] && SameHistory(s, at)
    ensures ReachesTables(c, s, t, Lost)
  {
    ReachesStep(c, s, at, Abandon(h));
    Overwritten(s.handlers, h, where, where);
    assert HasTables(Next(c, at, Abandon(h)), t);
  }

  lemma CommitRecords(
    c: Client, others: map<HandlerId, Handler>, at: System, t: Tables, h: HandlerId, r: PaymentRequest, ok: bool,
    result: EventId, now: int)
    requires h !in others && at.handlers == others[h := Decided(r, ok)] && HasTables(at, t) && result !in t.outbox
    requires c.Joins? && ok ==> r.userId in t.accounts
    ensures Enabled(c, at, Commit(h, result, now))
    ensures
      var s := Next(c, at, Commit(h, result, now));
      HasTables(s, Record(ChargedFor(t, r, c.Joins? && ok), r, ok, result, now))
        && s.handlers == others && s.requests == at.requests && SameHistory(at, s)
  {
    Overwritten(others, h, Decided(r, ok), Decided(r, ok));
  }

  /** A handler that has decided commits its inbox row and its result. */
  lemma CommitReaches(
    c: Client, s: System, t: Tables, at: System, h: HandlerId, ok: bool, result: EventId, now: int)
    requires s.requests.queue != [] && h !in s.handlers && Reaches(c, s, at) && at.requests == TakeMessage(s.requests)
    requires at.handlers == s.handlers[h := Decided(s.requests.queue[0], ok)] && HasTables(at, t) && result !in t.outbox
    requires SameHistory(s, at) && (c.Joins? && ok ==> s.requests.queue[0].userId in t.accounts)
    ensures
      var r := s.requests.queue[0];
      ReachesTables(c, s, Record(ChargedFor(t, r, c.Joins? && ok), r, ok, result, now), Decides)
  {
    CommitRecords(c, s.handlers, at, t, h, s.requests.queue[0], ok, result, now);
    ReachesStep(c, s, at, Commit(h, result, now));
  }

  /** Where the handler stands after `process_payment`, with or without an exception in it. */
  lemma PaymentReaches(c: Client, s: System, t: Tables, h: HandlerId, fault: Fault) returns (at: System)
    requires NewRequest(c, s, h) && HasTables(s, t)
    ensures
      var r := s.requests.queue[0];
      var ok := Pays(c, t, r, fault);
      && Reaches(c, s, at) && at.requests == TakeMessage(s.requests) && at.handlers == s.handlers[h := Decided(r, ok)]
      && HasTables(at, ChargedFor(t, r, ok && c.Standalone?)) && SameHistory(s, at)
  {
    var r := s.requests.queue[0];
    if fault.PaymentThrows? && r.amount > 0 {
      HandlerThrows(c, s, h);
      at := HandlerAt(s, h, Decided(r, false));
    } else {
      HandlerDecides(c, s, h);
      at := AfterDecision(c, s, h);
    }
  }

  /** `HandlePaymentRequest`, whatever exception it meets and whichever other handlers are open, is a run of the
      protocol: of a duplicate, or of a request whose key and account no other handler holds. The message is lost
      exactly if a statement outside the payment throws, so a crash never stands in for a decision. */
  lemma HandlerReaches(c: Client, s: System, t: Tables, h: HandlerId, result: EventId, now: int, fault: Fault)
    requires s.requests.queue != [] && h !in s.handlers && HasTables(s, t)
    requires s.requests.queue[0].orderId in t.inbox || NewRequest(c, s, h)
    ensures
      var r := s.requests.queue[0];
      var fate := if r.orderId in t.inbox then Duplicate
                  else if (fault.NoFault? || fault.PaymentThrows?) && result !in t.outbox then Decides
                  else Lost;
      ReachesTables(c, s, Handled(c, t, Some(r), result, now, fault), fate)
  {
    var r := s.requests.queue[0];
    if r.orderId in t.inbox {
      DuplicateReaches(c, s, t, h);
    } else if fault.InsertFails? {
      HandlerChecks(c, s, h);
      CrashReaches(c, s, t, HandlerAt(s, h, Checked(r)), h, Checked(r));
    } else {
      DecisionReaches(c, s, t, h, result, now, fault);
    }
  }

  /** The rest of the handler, from the payment on. */
  lemma DecisionReaches(c: Client, s: System, t: Tables, h: HandlerId, result: EventId, now: int, fault: Fault)
    requires NewRequest(c, s, h) && HasTables(s, t) && !fault.InsertFails?
    ensures ReachesTables(c, s, Handled(c, t, Some(s.requests.queue[0]), result, now, fault),
                          if Records(t, result, fault) then Decides else Lost)
  {
    var r := s.requests.queue[0];
    var at := PaymentReaches(c, s, t, h, fault);
    var ok := Pays(c, t, r, fault);
    var before := ChargedFor(t, r, ok && c.Standalone?);
    if Records(t, result, fault) {
      CommitReaches(c, s, before, at, h, ok, result, now);
    } else {
      CrashReaches(c, s, before, at, h, Decided(r, ok));
    }
  }
}
