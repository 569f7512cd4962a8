/** What holds of the payment protocol in every reachable state, for each behaviour of the database client. */
module ProtocolTheorems {
  import opened Collections
  import opened Outbox
  import opened Protocol
  import opened Ledger
  import opened ProtocolSafety

  // ----- outboxes, orders and results --------------------------------------------------------------

  /** Whatever was rolled back in between: a PROCESSED event was published, and only committed events ever were. */
  ghost predicate OutboxSafe<M>(b: Box<M>) {
    && (forall e | e in b.rows && b.rows[e].status.Processed? && b.rows[e].kind == b.route :: e in b.sent)
    && (forall e | e in b.sent :: e in b.rows && b.rows[e].kind == b.route)
    && (forall m | m in b.queue :: exists e :: e in b.sent && e in b.rows && b.rows[e].payload == m)
    && (forall v, w, e | v in b.batches && w in b.batches
          && e in b.batches[v].events && e in b.batches[w].events :: v == w)
  }

  lemma OutboxesSafe(c: Client, s: System)
    requires Reachable(c, s)
    ensures OutboxSafe(s.requests) && OutboxSafe(s.results)
  {
    ReachableInv(c, s);
    BoxSafe(s.requests);
    BoxSafe(s.results);
  }

  lemma BoxSafe<M>(b: Box<M>)
    requires BoxInv(b)
    ensures OutboxSafe(b)
  {
    forall m | m in b.queue ensures exists e :: e in b.sent && e in b.rows && b.rows[e].payload == m {
      assert Traced(b, m);
    }
    forall v, w, e | v in b.batches && w in b.batches && e in b.batches[v].events && e in b.batches[w].events
      ensures v == w
    {
      assert e in Elements(b.batches[v].events) && e in Elements(b.batches[w].events);
    }
  }

  ghost predicate OneRequestEvent(s: System, o: OrderId) {
    exists e :: e in s.requests.rows && s.requests.rows[e].kind == PAYMENT_REQUEST
      && o in s.orders && s.requests.rows[e].payload == PaymentRequest(o, s.orders[o].userId, s.orders[o].amount)
      && (forall f | f in s.requests.rows && s.requests.rows[f].payload.orderId == o :: f == e)
  }

  /** Orders and request events are created together and stay in bijection whatever the workers do. */
  lemma OrdersAndEventsTogether(c: Client, s: System)
    requires Reachable(c, s)
    ensures forall o | o in s.orders :: OneRequestEvent(s, o)
    ensures forall e | e in s.requests.rows :: s.requests.rows[e].payload.orderId in s.orders
  {
    ReachableInv(c, s);
    forall o | o in s.orders ensures OneRequestEvent(s, o) {
      var e :| Announces(s.requests.rows, RequestKey, e, o);
      forall f | f in s.requests.rows && s.requests.rows[f].payload.orderId == o ensures f == e {
        assert Announces(s.requests.rows, RequestKey, f, o);
      }
    }
  }

  ghost predicate OneResultEvent(s: System, o: OrderId) {
    exists e :: e in s.results.rows && s.results.rows[e].kind == PAYMENT_RESULT
      && s.results.rows[e].payload.orderId == o
      && s.results.rows[e].payload.success == (o in s.inbox && s.inbox[o].status.InboxProcessed?)
      && (forall f | f in s.results.rows && s.results.rows[f].payload.orderId == o :: f == e)
  }

  /** A committed inbox row is never PENDING, answers a committed order, and has exactly one result event. */
  lemma InboxAndResultsTogether(c: Client, s: System)
    requires Reachable(c, s)
    ensures forall o | o in s.inbox :: !s.inbox[o].status.InboxPending? && OneResultEvent(s, o)
              && o in s.orders && s.inbox[o].request == RequestFor(o, s.orders[o])
    ensures forall e | e in s.results.rows :: s.results.rows[e].payload.orderId in s.inbox
  {
    ReachableInv(c, s);
    forall o | o in s.inbox
      ensures !s.inbox[o].status.InboxPending? && OneResultEvent(s, o)
        && o in s.orders && s.inbox[o].request == RequestFor(o, s.orders[o])
    {
      assert Genuine(s, s.inbox[o].request);
      var e :| Announces(s.results.rows, ResultKey, e, o);
      forall f | f in s.results.rows && s.results.rows[f].payload.orderId == o ensures f == e {
        assert Announces(s.results.rows, ResultKey, f, o);
      }
    }
  }

  lemma DecisionKept(c: Client, s: System, st: Step, o: OrderId)
    requires FirstCommit(s, st) && Enabled(c, s, st) && o in s.inbox
    ensures o in Next(c, s, st).inbox && Next(c, s, st).inbox[o] == s.inbox[o]
  {
    if !st.Commit? {
      ResultsFrame(c, s, st);
    }
  }

  /** A committed decision is final: no later step of any run changes an inbox row. */
  lemma {:induction false} DecisionsAreFinal(c: Client, s: System, steps: seq<Step>, o: OrderId)
    requires Inv(c, s) && IsRun(c, s, steps) && o in s.inbox
    ensures o in Exec(c, s, steps).inbox && Exec(c, s, steps).inbox[o] == s.inbox[o]
    decreases |steps|
  {
    if steps != [] {
      var front, last := steps[..|steps| - 1], steps[|steps| - 1];
      DecisionsAreFinal(c, s, front, o);
      RunKeepsInv(c, s, front);
      CommitsAreFirst(c, Exec(c, s, front), last);
      DecisionKept(c, Exec(c, s, front), last, o);
    }
  }

  // ----- money -----------------------------------------------------------------------------------------

  /** The balances are those of a sequential ledger whose every prefix respects the column bounds. */
  lemma SequentialLedger(c: Client, s: System, u: UserId)
    requires Reachable(c, s) && u in s.accounts
    ensures s.accounts[u].balance == BalanceOf(s.ledger, u) && 0 <= s.accounts[u].balance <= MAX_CENTS
    ensures s.accounts[u].version == VersionOf(s.ledger, u) <= MAX_VERSION
    ensures Sequential(s.ledger)
  {
    ReachableInv(c, s);
    assert s.ledger[..|s.ledger|] == s.ledger;
  }

  /** Deposits less the amounts of PROCESSED inbox rows; the version counts both. */
  ghost predicate Conserved(s: System, u: UserId) {
    u in s.accounts ==>
      && s.accounts[u].balance == DepositSum(s.ledger, u) - MapSum(s.inbox, PaidAmount(u))
      && s.accounts[u].version == DepositCount(s.ledger, u) + MapSum(s.inbox, PaidOnce(u))
  }

  lemma Conservation(c: Client, s: System, u: UserId)
    requires Reachable(c, s) && !c.Standalone?
    ensures Conserved(s, u)
  {
    ReachableInv(c, s);
  }

  /** The conditional update succeeds exactly if nothing touched the account since it was read and the
      read balance covers the amount; a refusal moves no money. */
  lemma DebitDecision(c: Client, s: System, h: HandlerId)
    requires Reachable(c, s) && Enabled(c, s, Debit(h))
    ensures
      var r, seen, t := s.handlers[h].request, s.handlers[h].seen, Next(c, s, Debit(h));
      && t.handlers[h]
         == Decided(r, s.accounts[r.userId] == seen && seen.balance >= r.amount && seen.version < MAX_VERSION)
      && (!t.handlers[h].success ==> t.accounts == s.accounts && t.ledger == s.ledger)
  {
    ReachableInv(c, s);
    StepPosts(c, s, Debit(h));
  }

  /** The step makes an undecided handler decide that the payment failed. */
  ghost predicate Declines(c: Client, s: System, st: Step, h: HandlerId) {
    Enabled(c, s, st) && h in s.handlers && !s.handlers[h].Decided?
      && h in Next(c, s, st).handlers && Next(c, s, st).handlers[h] == Decided(s.handlers[h].request, false)
  }

  lemma DecliningStep(c: Client, s: System, st: Step, h: HandlerId)
    requires Declines(c, s, st, h)
    ensures st == Reject(h) || st == PaymentThrows(h) || st == Debit(h)
  {
    match st { case Take(_) => case Insert(_) => case ReadAccount(_) => case Commit(_, _, _) => case _ => }
  }

  lemma VersionBound(c: Client, s: System, u: UserId)
    requires Reachable(c, s) && u in s.accounts
    ensures s.accounts[u].version <= MAX_VERSION
  {
    ReachableInv(c, s);
    assert s.ledger[..|s.ledger|] == s.ledger;
  }

  /** When no statement of `process_payment` throws, only these make it answer false, and it then moves no
      money: the amount, a missing account, funds or version room at the update, or a moved version. */
  lemma RefusalReasons(c: Client, s: System, st: Step, h: HandlerId)
    requires Reachable(c, s) && Declines(c, s, st, h) && !st.PaymentThrows?
    ensures
      var r, at := s.handlers[h].request, s.handlers[h];
      || r.amount <= 0
      || r.userId !in s.accounts
      || s.accounts[r.userId].balance < r.amount
      || s.accounts[r.userId].version == MAX_VERSION
      || (at.HasRead? && s.accounts[r.userId].version != at.seen.version)
    ensures Next(c, s, st).accounts == s.accounts && Next(c, s, st).ledger == s.ledger
  {
    DecliningStep(c, s, st, h);
    if s.handlers[h].request.userId in s.accounts {
      VersionBound(c, s, s.handlers[h].request.userId);
    }
  }

  /** Every step of every run is one valid operation of a sequential ledger or no money operation at all. */
  lemma NoLostUpdate(c: Client, s: System, st: Step)
    requires Reachable(c, s) && Enabled(c, s, st)
    ensures (exists e :: Posts(s, Next(c, s, st), e))
            || (Next(c, s, st).accounts == s.accounts && Next(c, s, st).ledger == s.ledger)
  {
    ReachableInv(c, s);
    StepPosts(c, s, st);
  }

  ghost predicate AtMostOnce(s: System) {
    forall o :: DebitsFor(s.ledger, o) <= 1
  }

  /** Exactly-once effect when the debit joins the handler's transaction (or is refused). */
  lemma ChargedExactlyOnce(c: Client, s: System, o: OrderId)
    requires Reachable(c, s) && !c.Standalone?
    ensures DebitsFor(s.ledger, o) == if o in s.inbox && s.inbox[o].status.InboxProcessed? then 1 else 0
  {
    ReachableInv(c, s);
  }

  // ----- end to end --------------------------------------------------------------------------------------

  /** All notifications of one order agree. */
  lemma NoticesAgree(c: Client, s: System, m: Notice, n: Notice)
    requires Reachable(c, s) && m in s.notices && n in s.notices && m.orderId == n.orderId
    ensures m == n
  {
    ReachableInv(c, s);
  }

  /** FINISHED means the order was created and exactly its amount left exactly its user's account, once;
      CANCELLED means it never did. */
  ghost predicate Truthful(s: System, n: Notice) {
    && n.orderId in s.orders
    && (n.status.CANCELLED? ==> DebitsFor(s.ledger, n.orderId) == 0)
    && (n.status.FINISHED? ==>
          var order := s.orders[n.orderId];
          && DebitsFor(s.ledger, n.orderId) == 1
          && Debited(order.userId, order.amount, n.orderId) in s.ledger
          && (forall e | e in s.ledger && e.Debited? && e.orderId == n.orderId ::
                e == Debited(order.userId, order.amount, n.orderId)))
  }

  lemma NoticesTellTheTruth(c: Client, s: System, n: Notice)
    requires Reachable(c, s) && !c.Standalone? && n in s.notices
    ensures Truthful(s, n)
  {
    ReachableInv(c, s);
    assert Genuine(s, s.inbox[n.orderId].request);
    if n.status.FINISHED? {
      var i := DebitIndex(s.ledger, n.orderId);
      forall e | e in s.ledger && e.Debited? && e.orderId == n.orderId
        ensures e == Debited(s.orders[n.orderId].userId, s.orders[n.orderId].amount, n.orderId)
      {
        var k :| 0 <= k < |s.ledger| && s.ledger[k] == e;
      }
    }
  }

  lemma {:induction false} DebitIndex(l: seq<Entry>, o: OrderId) returns (i: nat)
    requires DebitsFor(l, o) > 0
    ensures i < |l| && l[i].Debited? && l[i].orderId == o
  {
    i := |l| - 1;
    if !(l[i].Debited? && l[i].orderId == o) {
      i := DebitIndex(l[..i], o);
    }
  }
}
