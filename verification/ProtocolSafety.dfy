/** The inductive invariant of the payment protocol: what every step, including every fault, keeps. */
module ProtocolSafety {
  import opened Collections
  import opened Outbox
  import opened Protocol
  import opened Ledger

  // ----- orders and their events -----------------------------------------------------------------

  function RequestKey(r: PaymentRequest): OrderId { r.orderId }

  /** Orders and PAYMENT_REQUEST events correspond one to one. */
  ghost predicate OrdersInv(s: System) {
    && s.requests.route == PAYMENT_REQUEST
    && Mirrors(s.orders, s.requests.rows, PAYMENT_REQUEST, RequestKey, RequestFor)
  }

  /** A request that was really published for a really committed order. */
  ghost predicate Genuine(s: System, r: PaymentRequest) {
    r.orderId in s.orders && r == RequestFor(r.orderId, s.orders[r.orderId]) && Traced(s.requests, r)
  }

  ghost predicate FlowInv(s: System) {
    && (forall h | h in s.handlers :: Genuine(s, s.handlers[h].request))
    && (forall o | o in s.inbox :: Genuine(s, s.inbox[o].request) && s.inbox[o].request.orderId == o
          && !s.inbox[o].status.InboxPending?)
  }

  // ----- inbox rows and result events --------------------------------------------------------------

  function ResultKey(r: PaymentResult): OrderId { r.orderId }

  function ResultOfRow(o: OrderId, row: InboxRow): PaymentResult {
    PaymentResult(o, row.request.userId, row.status.InboxProcessed?,
                  if row.status.InboxProcessed? then "Payment successful" else "Payment failed")
  }

  /** Inbox rows and PAYMENT_RESULT events correspond one to one, and the event tells the row's status. */
  ghost predicate ResultsInv(s: System) {
    && s.results.route == PAYMENT_RESULT
    && Mirrors(s.inbox, s.results.rows, PAYMENT_RESULT, ResultKey, ResultOfRow)
  }

  ghost predicate NoticesInv(s: System) {
    forall n | n in s.notices ::
      n.orderId in s.inbox && n == NoticeFor(ResultOfRow(n.orderId, s.inbox[n.orderId]))
  }

  // ----- open handlers -----------------------------------------------------------------------------

  ghost predicate KeysInv(s: System) {
    && (forall h, o | HoldsKey(s, h, o) :: o !in s.inbox)
    && (forall g, h, o | HoldsKey(s, g, o) && HoldsKey(s, h, o) :: g == h)
  }

  /** A version that has not moved since the read means an account that has not changed since the read. */
  ghost predicate ReadsInv(c: Client, s: System) {
    forall h | h in s.handlers && s.handlers[h].HasRead? ::
      var r, seen := s.handlers[h].request, s.handlers[h].seen;
      !c.Refuses? && r.amount > 0 && r.userId in s.accounts && seen.version <= s.accounts[r.userId].version
        && (seen.version == s.accounts[r.userId].version ==> seen == s.accounts[r.userId])
  }

  // ----- money ---------------------------------------------------------------------------------------

  ghost predicate LedgerInv(s: System) {
    && (forall u | u in s.accounts :: s.accounts[u] == Account(BalanceOf(s.ledger, u), VersionOf(s.ledger, u)))
    && (forall u | u !in s.accounts :: BalanceOf(s.ledger, u) == 0 && VersionOf(s.ledger, u) == 0)
    && Sequential(s.ledger)
  }

  function PaidAmount(u: UserId): InboxRow -> int {
    (row: InboxRow) => if row.status.InboxProcessed? && row.request.userId == u then row.request.amount else 0
  }

  function PaidOnce(u: UserId): InboxRow -> int {
    (row: InboxRow) => if row.status.InboxProcessed? && row.request.userId == u then 1 else 0
  }

  ghost predicate ConservationInv(s: System) {
    && (forall u :: BalanceOf(s.ledger, u) == DepositSum(s.ledger, u) - MapSum(s.inbox, PaidAmount(u)))
    && (forall u :: VersionOf(s.ledger, u) == DepositCount(s.ledger, u) + MapSum(s.inbox, PaidOnce(u)))
  }

  predicate IsPaid(s: System, o: OrderId) {
    o in s.inbox && s.inbox[o].status.InboxProcessed?
  }

  /** Each order is debited once if its committed inbox row is PROCESSED and not at all otherwise. */
  ghost predicate ChargedOnce(s: System) {
    && (forall o :: DebitsFor(s.ledger, o) == if IsPaid(s, o) then 1 else 0)
    && (forall i | 0 <= i < |s.ledger| && s.ledger[i].Debited? ::
          IsPaid(s, s.ledger[i].orderId)
            && s.inbox[s.ledger[i].orderId].request
               == PaymentRequest(s.ledger[i].orderId, s.ledger[i].user, s.ledger[i].amount))
  }

  /** A debit that waits for its handler's commit can still be applied, and is alone on its account. */
  ghost predicate PendingDebits(c: Client, s: System) {
    && (forall h | h in s.handlers && s.handlers[h].Decided? && s.handlers[h].success ::
          var r := s.handlers[h].request;
          c.Joins? && r.userId in s.accounts && 0 < r.amount <= s.accounts[r.userId].balance
            && s.accounts[r.userId].version < MAX_VERSION)
    && (forall g, h, u | HoldsAccount(c, s, g, u) && HoldsAccount(c, s, h, u) :: g == h)
  }

  ghost predicate OnceInv(c: Client, s: System) {
    && ChargedOnce(s) && PendingDebits(c, s) && ConservationInv(s)
    && (c.Refuses? ==> forall o :: !IsPaid(s, o))
  }

  ghost predicate Inv(c: Client, s: System) {
    && BoxInv(s.requests) && BoxInv(s.results)
    && OrdersInv(s) && FlowInv(s) && ResultsInv(s) && NoticesInv(s) && KeysInv(s) && ReadsInv(c, s) && LedgerInv(s)
    && (!c.Standalone? ==> OnceInv(c, s))
  }

  // ----- preservation, one group at a time -------------------------------------------------------------

  lemma StartBoxInv<M>(b: Box<M>)
    requires b.rows == map[] && b.batches == map[] && b.queue == [] && b.sent == []
    ensures BoxInv(b)
  {
  }

  lemma StartLedgerInv()
    ensures LedgerInv(START)
  {
    forall k, u | 0 <= k <= |START.ledger|
      ensures 0 <= BalanceOf(START.ledger[..k], u) <= MAX_CENTS && VersionOf(START.ledger[..k], u) <= MAX_VERSION
    {
      assert START.ledger[..k] == [];
    }
  }

  lemma StartInv(c: Client)
    ensures Inv(c, START)
  {
    StartBoxInv(START.requests);
    StartBoxInv(START.results);
    StartLedgerInv();
    StartOnceInv(c);
  }

  lemma StartOnceInv(c: Client)
    ensures OnceInv(c, START)
  {
    assert START.ledger == [] && START.inbox == map[] && START.handlers == map[];
  }

  /** Only the transactions that insert events add rows, and no step takes one away or changes its payload. */
  lemma RequestsExtend(c: Client, s: System, st: Step)
    requires Enabled(c, s, st)
    ensures
      var t := Next(c, s, st);
      && Extends(s.requests, t.requests)
      && (!st.CreateOrder? ==> t.orders == s.orders && t.requests.rows.Keys == s.requests.rows.Keys)
  {
    if st.RequestStep? {
      StepExtends(s.requests, st.box);
    } else if !st.CreateOrder? && !st.Take? {
      RequestsFrame(c, s, st);
    }
  }

  lemma RequestsFrame(c: Client, s: System, st: Step)
    requires Enabled(c, s, st) && !st.RequestStep? && !st.CreateOrder? && !st.Take?
    ensures Next(c, s, st).requests == s.requests && Next(c, s, st).orders == s.orders
  {
    match st { case ResultStep(_) => case Debit(_) => case Commit(_, _, _) => case _ => }
  }

  lemma BoxesKept(c: Client, s: System, st: Step)
    requires BoxInv(s.requests) && BoxInv(s.results) && Enabled(c, s, st)
    ensures BoxInv(Next(c, s, st).requests) && BoxInv(Next(c, s, st).results)
  {
    match st
    case CreateOrder(o, e, u, a, d, now) =>
      InsertKeepsInv(s.requests, e, PAYMENT_REQUEST, PaymentRequest(o, u, a), now);
    case RequestStep(b) => BoxStepKeepsInv(s.requests, b);
    case ResultStep(b) => BoxStepKeepsInv(s.results, b);
    case Take(h) => TakeKeepsInv(s.requests);
    case Notify => TakeKeepsInv(s.results);
    case Commit(h, e, now) =>
      InsertKeepsInv(s.results, e, PAYMENT_RESULT, ResultFor(s.handlers[h].request, s.handlers[h].success), now);
    case _ =>
  }

  lemma OrdersKept(c: Client, s: System, st: Step)
    requires OrdersInv(s) && Enabled(c, s, st)
    ensures OrdersInv(Next(c, s, st))
  {
    var t := Next(c, s, st);
    if st.CreateOrder? {
      MirrorsInsert(s.orders, s.requests.rows, PAYMENT_REQUEST, RequestKey, RequestFor,
                    st.orderId, t.orders[st.orderId], st.event, st.now);
    } else {
      RequestsExtend(c, s, st);
      MirrorsLater(s.orders, s.requests, t.requests, PAYMENT_REQUEST, RequestKey, RequestFor);
    }
  }

  lemma GenuineKept(c: Client, s: System, st: Step, r: PaymentRequest)
    requires Enabled(c, s, st) && Genuine(s, r)
    ensures Genuine(Next(c, s, st), r)
  {
    RequestsExtend(c, s, st);
    TracedExtends(s.requests, Next(c, s, st).requests, r);
  }

  /** Whatever a consumer is handed was published by an outbox. */
  lemma QueueTraceable(s: System)
    requires BoxInv(s.requests) && BoxInv(s.results) && OrdersInv(s)
    ensures s.requests.queue != [] ==> Genuine(s, s.requests.queue[0])
    ensures s.results.queue != [] ==> Traced(s.results, s.results.queue[0])
  {
    if s.requests.queue != [] { assert s.requests.queue[0] in s.requests.queue; }
    if s.results.queue != [] { assert s.results.queue[0] in s.results.queue; }
  }

  /** A step gives a handler or an inbox row only requests that were queued or held already. */
  lemma RequestsComeFrom(c: Client, s: System, st: Step)
    requires Enabled(c, s, st)
    ensures forall h | h in Next(c, s, st).handlers ::
              var r := Next(c, s, st).handlers[h].request;
              (h in s.handlers && s.handlers[h].request == r) || (st.Take? && r == s.requests.queue[0])
    ensures forall o | o in Next(c, s, st).inbox ::
              var row := Next(c, s, st).inbox[o];
              (o in s.inbox && s.inbox[o] == row)
              || (st.Commit? && row.request == s.handlers[st.h].request && row.request.orderId == o
                  && !row.status.InboxPending?)
  {
  }

  lemma FlowKept(c: Client, s: System, st: Step)
    requires FlowInv(s) && Enabled(c, s, st)
    requires st.Take? ==> Genuine(s, s.requests.queue[0])
    ensures FlowInv(Next(c, s, st))
  {
    var t := Next(c, s, st);
    RequestsComeFrom(c, s, st);
    forall h | h in t.handlers ensures Genuine(t, t.handlers[h].request) {
      assert Genuine(s, t.handlers[h].request);
      GenuineKept(c, s, st, t.handlers[h].request);
    }
    forall o | o in t.inbox ensures Genuine(t, t.inbox[o].request) {
      assert Genuine(s, t.inbox[o].request);
      GenuineKept(c, s, st, t.inbox[o].request);
    }
  }

  lemma KeysKept(c: Client, s: System, st: Step)
    requires KeysInv(s) && Enabled(c, s, st)
    ensures KeysInv(Next(c, s, st))
  {
    var s' := Next(c, s, st);
    forall h, o | HoldsKey(s', h, o) ensures o !in s'.inbox {
      assert (st.Insert? && st.h == h) || HoldsKey(s, h, o);
      if st.Commit? {
        assert HoldsKey(s, st.h, s.handlers[st.h].request.orderId);
      }
    }
    forall g, h, o | HoldsKey(s', g, o) && HoldsKey(s', h, o) ensures g == h {
      assert (st.Insert? && st.h == h) || HoldsKey(s, h, o);
      assert (st.Insert? && st.h == g) || HoldsKey(s, g, o);
    }
  }

  /** A handler that commits is the first to do so for its order. */
  ghost predicate FirstCommit(s: System, st: Step) {
    st.Commit? && st.h in s.handlers ==> s.handlers[st.h].request.orderId !in s.inbox
  }

  lemma CommitsAreFirst(c: Client, s: System, st: Step)
    requires KeysInv(s) && Enabled(c, s, st)
    ensures FirstCommit(s, st)
  {
    if st.Commit? {
      assert HoldsKey(s, st.h, s.handlers[st.h].request.orderId);
    }
  }

  /** Steps other than a commit leave the inbox and the rows of the result events where they were. */
  lemma ResultsFrame(c: Client, s: System, st: Step)
    requires Enabled(c, s, st) && !st.Commit?
    ensures Next(c, s, st).inbox == s.inbox
    ensures !st.ResultStep? ==> Next(c, s, st).results.rows == s.results.rows
    ensures !st.Notify? ==> Next(c, s, st).notices == s.notices
  {
    if st.Take? || st.Debit? {
      DeliveryFrame(c, s, st);
    } else {
      match st { case RequestStep(_) => case ResultStep(_) => case Notify => case Insert(_) => case _ => }
    }
  }

  lemma DeliveryFrame(c: Client, s: System, st: Step)
    requires Enabled(c, s, st) && (st.Take? || st.Debit?)
    ensures Next(c, s, st).inbox == s.inbox && Next(c, s, st).results == s.results
    ensures Next(c, s, st).notices == s.notices && Next(c, s, st).lostResults == s.lostResults
  {
  }

  lemma ResultsInvLater(s: System, t: System)
    requires ResultsInv(s) && t.inbox == s.inbox
    requires Extends(s.results, t.results) && t.results.rows.Keys == s.results.rows.Keys
    ensures ResultsInv(t)
  {
    MirrorsLater(s.inbox, s.results, t.results, PAYMENT_RESULT, ResultKey, ResultOfRow);
  }

  lemma CommitKeepsResults(c: Client, s: System, st: Step)
    requires ResultsInv(s) && NoticesInv(s) && Enabled(c, s, st) && st.Commit? && FirstCommit(s, st)
    ensures ResultsInv(Next(c, s, st)) && NoticesInv(Next(c, s, st))
  {
    var o := s.handlers[st.h].request.orderId;
    MirrorsInsert(s.inbox, s.results.rows, PAYMENT_RESULT, ResultKey, ResultOfRow,
                  o, Next(c, s, st).inbox[o], st.result, st.when);
  }

  lemma NotifyKeepsNotices(c: Client, s: System)
    requires ResultsInv(s) && NoticesInv(s) && Enabled(c, s, Notify) && Traced(s.results, s.results.queue[0])
    ensures NoticesInv(Next(c, s, Notify))
  {
  }

  lemma ResultsKept(c: Client, s: System, st: Step)
    requires ResultsInv(s) && NoticesInv(s) && FirstCommit(s, st) && Enabled(c, s, st)
    requires st.Notify? ==> Traced(s.results, s.results.queue[0])
    ensures ResultsInv(Next(c, s, st)) && NoticesInv(Next(c, s, st))
  {
    if st.Commit? {
      CommitKeepsResults(c, s, st);
    } else {
      ResultsFrame(c, s, st);
      if st.ResultStep? {
        StepExtends(s.results, st.box);
      }
      ResultsInvLater(s, Next(c, s, st));
      if st.Notify? { NotifyKeepsNotices(c, s); }
    }
  }

  lemma ReadsKept(c: Client, s: System, st: Step)
    requires ReadsInv(c, s) && Enabled(c, s, st)
    ensures ReadsInv(c, Next(c, s, st))
  {
  }

  /** One valid operation of a sequential ledger, which reads and writes the account it names and no other. */
  ghost predicate Posts(s: System, t: System, e: Entry) {
    var u := e.user;
    && t.ledger == s.ledger + [e]
    && match e
       case Opened(_) => u !in s.accounts && t.accounts == s.accounts[u := Account(0, 0)]
       case Deposited(_, a) =>
         && u in s.accounts && 0 < a && s.accounts[u].balance + a <= MAX_CENTS && s.accounts[u].version < MAX_VERSION
         && t.accounts == s.accounts[u := Account(s.accounts[u].balance + a, s.accounts[u].version + 1)]
       case Debited(_, a, _) =>
         && u in s.accounts && 0 < a <= s.accounts[u].balance && s.accounts[u].version < MAX_VERSION
         && t.accounts == s.accounts[u := Account(s.accounts[u].balance - a, s.accounts[u].version + 1)]
  }

  /** The step that charges a request: the commit of a joined debit, or a debit on its own connection. */
  ghost predicate Charges(c: Client, s: System, st: Step) {
    || (st.Commit? && st.h in s.handlers && s.handlers[st.h].Decided? && s.handlers[st.h].success && c.Joins?)
    || (st.Debit? && st.h in s.handlers && s.handlers[st.h].HasRead? && c.Standalone?
        && s.handlers[st.h].request.userId in s.accounts
        && DebitAccepted(s.accounts[s.handlers[st.h].request.userId], s.handlers[st.h].seen,
                         s.handlers[st.h].request.amount))
  }

  function DebitEntry(r: PaymentRequest): Entry { Debited(r.userId, r.amount, r.orderId) }

  /** Interleaved with anything, every step is one sequential ledger operation or leaves the money alone. */
  lemma StepPosts(c: Client, s: System, st: Step)
    requires ReadsInv(c, s) && (!c.Standalone? ==> PendingDebits(c, s)) && Enabled(c, s, st)
    ensures st.OpenAccount? ==> Posts(s, Next(c, s, st), Opened(st.user))
    ensures st.Deposit? ==> Posts(s, Next(c, s, st), Deposited(st.user, st.cents))
    ensures Charges(c, s, st) ==> Posts(s, Next(c, s, st), DebitEntry(s.handlers[st.h].request))
    ensures !st.OpenAccount? && !st.Deposit? && !Charges(c, s, st) ==>
      Next(c, s, st).ledger == s.ledger && Next(c, s, st).accounts == s.accounts
  {
    if st.Debit? || st.Commit? {
      HandlerPosts(c, s, st);
    } else if !st.OpenAccount? && !st.Deposit? {
      MoneyFrame(c, s, st);
    }
  }

  /** Steps that post nothing. */
  lemma MoneyFrame(c: Client, s: System, st: Step)
    requires Enabled(c, s, st) && !st.Debit? && !st.Commit? && !st.OpenAccount? && !st.Deposit?
    ensures Next(c, s, st).ledger == s.ledger && Next(c, s, st).accounts == s.accounts
  {
    match st { case RequestStep(_) => case ResultStep(_) => case Take(_) => case _ => }
  }

  lemma HandlerPosts(c: Client, s: System, st: Step)
    requires ReadsInv(c, s) && (!c.Standalone? ==> PendingDebits(c, s))
    requires Enabled(c, s, st) && (st.Debit? || st.Commit?)
    ensures Charges(c, s, st) ==> Posts(s, Next(c, s, st), DebitEntry(s.handlers[st.h].request))
    ensures !Charges(c, s, st) ==> Next(c, s, st).ledger == s.ledger && Next(c, s, st).accounts == s.accounts
  {
  }

  lemma LedgerPosted(s: System, t: System, e: Entry)
    requires LedgerInv(s) && Posts(s, t, e)
    ensures LedgerInv(t)
  {
    Appended(s.ledger, e);
    assert s.ledger[..|s.ledger|] == s.ledger;
    SequentialAppend(s.ledger, e);
  }

  lemma LedgerKept(c: Client, s: System, st: Step)
    requires LedgerInv(s) && ReadsInv(c, s) && (!c.Standalone? ==> PendingDebits(c, s)) && Enabled(c, s, st)
    ensures LedgerInv(Next(c, s, st))
  {
    var t := Next(c, s, st);
    StepPosts(c, s, st);
    if st.OpenAccount? {
      LedgerPosted(s, t, Opened(st.user));
    } else if st.Deposit? {
      LedgerPosted(s, t, Deposited(st.user, st.cents));
    } else if Charges(c, s, st) {
      LedgerPosted(s, t, DebitEntry(s.handlers[st.h].request));
    }
  }

  /** What a handler's commit does to the money and the inbox when debits join its transaction. */
  ghost predicate Commits(s: System, t: System, r: PaymentRequest, ok: bool) {
    && r.orderId !in s.inbox && t.inbox == s.inbox[r.orderId := InboxRow(r, StatusFor(ok))]
    && t.ledger == if ok then s.ledger + [Debited(r.userId, r.amount, r.orderId)] else s.ledger
  }

  lemma ChargedOnceCommitted(s: System, t: System, r: PaymentRequest, ok: bool)
    requires ChargedOnce(s) && Commits(s, t, r, ok)
    ensures ChargedOnce(t)
  {
    if ok {
      Appended(s.ledger, Debited(r.userId, r.amount, r.orderId));
    }
    assert !IsPaid(s, r.orderId);
  }

  lemma ConservationCommitted(s: System, t: System, r: PaymentRequest, ok: bool)
    requires ConservationInv(s) && Commits(s, t, r, ok)
    ensures ConservationInv(t)
  {
    if ok {
      Appended(s.ledger, Debited(r.userId, r.amount, r.orderId));
    }
    forall u
      ensures MapSum(t.inbox, PaidAmount(u))
           == MapSum(s.inbox, PaidAmount(u)) + PaidAmount(u)(InboxRow(r, StatusFor(ok)))
      ensures MapSum(t.inbox, PaidOnce(u))
           == MapSum(s.inbox, PaidOnce(u)) + PaidOnce(u)(InboxRow(r, StatusFor(ok)))
    {
      MapSumInsert(s.inbox, r.orderId, InboxRow(r, StatusFor(ok)), PaidAmount(u));
      MapSumInsert(s.inbox, r.orderId, InboxRow(r, StatusFor(ok)), PaidOnce(u));
    }
  }

  lemma CreditKeepsOnce(s: System, t: System, e: Entry)
    requires ChargedOnce(s) && ConservationInv(s)
    requires !e.Debited? && t.ledger == s.ledger + [e] && t.inbox == s.inbox
    ensures ChargedOnce(t) && ConservationInv(t)
  {
    Appended(s.ledger, e);
  }

  lemma ChargesKept(c: Client, s: System, st: Step)
    requires ChargedOnce(s) && ConservationInv(s) && PendingDebits(c, s) && FirstCommit(s, st) && ReadsInv(c, s)
    requires Enabled(c, s, st) && !c.Standalone?
    ensures ChargedOnce(Next(c, s, st)) && ConservationInv(Next(c, s, st))
  {
    var t := Next(c, s, st);
    if st.Commit? {
      var r, ok := s.handlers[st.h].request, s.handlers[st.h].success;
      ChargedOnceCommitted(s, t, r, ok);
      ConservationCommitted(s, t, r, ok);
    } else {
      ResultsFrame(c, s, st);
      if st.OpenAccount? {
        CreditKeepsOnce(s, t, Opened(st.user));
      } else if st.Deposit? {
        CreditKeepsOnce(s, t, Deposited(st.user, st.cents));
      } else {
        StepPosts(c, s, st);
      }
    }
  }

  lemma NeverPaidKept(c: Client, s: System, st: Step, o: OrderId)
    requires c.Refuses? && PendingDebits(c, s) && !IsPaid(s, o) && Enabled(c, s, st)
    ensures !IsPaid(Next(c, s, st), o)
  {
    if !st.Commit? {
      ResultsFrame(c, s, st);
    }
  }

  lemma PendingDebitKept(c: Client, s: System, st: Step, h: HandlerId)
    requires PendingDebits(c, s) && ReadsInv(c, s) && Enabled(c, s, st) && !c.Standalone?
    requires h in Next(c, s, st).handlers && Next(c, s, st).handlers[h].Decided? && Next(c, s, st).handlers[h].success
    ensures
      var t := Next(c, s, st);
      var r := t.handlers[h].request;
      c.Joins? && r.userId in t.accounts && 0 < r.amount <= t.accounts[r.userId].balance
        && t.accounts[r.userId].version < MAX_VERSION
  {
    StepPosts(c, s, st);
    if h in s.handlers && s.handlers[h].Decided? {
      assert HoldsAccount(c, s, h, s.handlers[h].request.userId);
      if st.Commit? && s.handlers[st.h].success {
        assert HoldsAccount(c, s, st.h, s.handlers[st.h].request.userId);
      }
    }
  }

  lemma PendingDebitsKept(c: Client, s: System, st: Step)
    requires PendingDebits(c, s) && ReadsInv(c, s) && Enabled(c, s, st) && !c.Standalone?
    ensures PendingDebits(c, Next(c, s, st))
  {
    var t := Next(c, s, st);
    forall h | h in t.handlers && t.handlers[h].Decided? && t.handlers[h].success
      ensures c.Joins? && t.handlers[h].request.userId in t.accounts
        && 0 < t.handlers[h].request.amount <= t.accounts[t.handlers[h].request.userId].balance
        && t.accounts[t.handlers[h].request.userId].version < MAX_VERSION
    {
      PendingDebitKept(c, s, st, h);
    }
    forall g, h, u | HoldsAccount(c, t, g, u) && HoldsAccount(c, t, h, u) ensures g == h {
      assert (st.Debit? && st.h == h) || HoldsAccount(c, s, h, u);
      assert (st.Debit? && st.h == g) || HoldsAccount(c, s, g, u);
    }
  }

  lemma OnceKept(c: Client, s: System, st: Step)
    requires OnceInv(c, s) && FirstCommit(s, st) && ReadsInv(c, s) && Enabled(c, s, st) && !c.Standalone?
    ensures OnceInv(c, Next(c, s, st))
  {
    ChargesKept(c, s, st);
    if c.Refuses? {
      forall o ensures !IsPaid(Next(c, s, st), o) { NeverPaidKept(c, s, st, o); }
    }
    PendingDebitsKept(c, s, st);
  }

  /** Safety of the whole protocol: no step, faulty or not, breaks the invariant. */
  lemma StepKeepsInv(c: Client, s: System, st: Step)
    requires Inv(c, s) && Enabled(c, s, st)
    ensures Inv(c, Next(c, s, st))
  {
    BoxesKept(c, s, st);
    OrdersKept(c, s, st);
    QueueTraceable(s);
    FlowKept(c, s, st);
    KeysKept(c, s, st);
    CommitsAreFirst(c, s, st);
    ResultsKept(c, s, st);
    ReadsKept(c, s, st);
    LedgerKept(c, s, st);
    if !c.Standalone? {
      OnceKept(c, s, st);
    }
  }

  lemma {:induction false} RunKeepsInv(c: Client, s: System, steps: seq<Step>)
    requires Inv(c, s) && IsRun(c, s, steps)
    ensures Inv(c, Exec(c, s, steps))
    decreases |steps|
  {
    if steps != [] {
      RunKeepsInv(c, s, steps[..|steps| - 1]);
      StepKeepsInv(c, Exec(c, s, steps[..|steps| - 1]), steps[|steps| - 1]);
    }
  }

  lemma ReachableInv(c: Client, s: System)
    requires Reachable(c, s)
    ensures Inv(c, s)
  {
    var steps :| IsRun(c, START, steps) && Exec(c, START, steps) == s;
    StartInv(c);
    RunKeepsInv(c, START, steps);
  }
}
