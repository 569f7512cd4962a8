/**
 * The order payment protocol of the gateway as one state machine: the orders database and its outbox,
 * the request queue, the payments database with its inbox and outbox, the result queue, and the
 * notifications of the WebSocket service. Every database statement or transaction that other parts
 * can interleave with is a step of its own; faults are steps too.
 */
module Protocol {
  import opened Outbox

  type OrderId = string
  type UserId = string
  type HandlerId = nat

  /** DECIMAL(10,2) in cents, and INTEGER. */
  const MAX_CENTS: int := 9_999_999_999
  const MAX_VERSION: int := 2_147_483_647

  const PAYMENT_REQUEST := "PAYMENT_REQUEST"
  const PAYMENT_RESULT := "PAYMENT_RESULT"

  /** The number of decimal digits; none for zero. */
  function Digits(n: nat): nat { if n == 0 then 0 else 1 + Digits(n / 10) }

  /** The largest amount is the last one of ten digits, and the largest version the last one of 31 bits. */
  lemma ColumnBounds(n: nat)
    ensures n <= MAX_CENTS <==> Digits(n) <= 10
    ensures MAX_VERSION + 1 == 0x8000_0000
  {
    DigitsBound(n, 10);
    assert Power10(10) == 10 * 10 * 10 * 10 * 10 * 10 * 10 * 10 * 10 * 10 by {
      assert Power10(5) == 10 * 10 * 10 * 10 * 10;
    }
  }

  function Power10(k: nat): (p: nat)
    ensures p > 0
  {
    if k == 0 then 1 else 10 * Power10(k - 1)
  }

  lemma {:induction false} DigitsBound(n: nat, k: nat)
    ensures n < Power10(k) <==> Digits(n) <= k
    decreases k
  {
    if n > 0 && k > 0 {
      DigitsBound(n / 10, k - 1);
      assert n < 10 * Power10(k - 1) <==> n / 10 < Power10(k - 1);
    }
  }

  /**
   * What the database client does when `process_payment` opens a transaction while the inbox handler
   * holds one: refuse (an exception, which `process_payment` turns into false), join it as a savepoint,
   * or run it on a connection of its own, where it commits at once.
   */
  datatype Client = Refuses | Joins | Standalone

  datatype Order = Order(userId: UserId, amount: int, description: string, status: string, createdAt: int)
  datatype PaymentRequest = PaymentRequest(orderId: OrderId, userId: UserId, amount: int)
  datatype PaymentResult = PaymentResult(orderId: OrderId, userId: UserId, success: bool, message: string)
  datatype Account = Account(balance: int, version: int)
  datatype InboxStatus = InboxPending | InboxProcessed | InboxFailed
  datatype InboxRow = InboxRow(request: PaymentRequest, status: InboxStatus)
  datatype NoticeStatus = FINISHED | CANCELLED
  datatype Notice = Notice(orderId: OrderId, status: NoticeStatus, message: string)

  /** One committed change of an account, in commit order: the history the balances must agree with. */
  datatype Entry =
    | Opened(user: UserId)
    | Deposited(user: UserId, amount: int)
    | Debited(user: UserId, amount: int, orderId: OrderId)

  /** Where `handle_payment_request` stands; from `Inserted` on it holds a transaction open. */
  datatype Handler =
    | Checked(request: PaymentRequest)
    | Inserted(request: PaymentRequest)
    | HasRead(request: PaymentRequest, seen: Account)
    | Decided(request: PaymentRequest, success: bool)

  /** `lostRequests`, `duplicates` and `lostResults` are history: messages destroyed by a fault, and
      requests dropped because their order was already handled. */
  datatype System = System(
    orders: map<OrderId, Order>,
    requests: Box<PaymentRequest>,
    accounts: map<UserId, Account>,
    ledger: seq<Entry>,
    inbox: map<OrderId, InboxRow>,
    handlers: map<HandlerId, Handler>,
    results: Box<PaymentResult>,
    notices: seq<Notice>,
    lostRequests: multiset<PaymentRequest>,
    duplicates: multiset<PaymentRequest>,
    lostResults: multiset<PaymentResult>)

  const START: System := System(
    map[], Box(PAYMENT_REQUEST, map[], map[], [], []),
    map[], [], map[], map[],
    Box(PAYMENT_RESULT, map[], map[], [], []),
    [], multiset{}, multiset{}, multiset{})

  datatype Step =
    | CreateOrder(orderId: OrderId, event: EventId, userId: UserId, amount: int, description: string, now: int)
    | OpenAccount(user: UserId)
    | Deposit(user: UserId, cents: int)
    | RequestStep(box: BoxStep)
    | Take(h: HandlerId)           // a request is delivered and the inbox queried
    | Insert(h: HandlerId)         // transaction opened, inbox row inserted
    | InsertConflict(h: HandlerId) // the primary key refuses the row
    | ReadAccount(h: HandlerId)
    | Reject(h: HandlerId)         // amount not positive, or no such account
    | PaymentThrows(h: HandlerId)  // any exception inside process_payment
    | Debit(h: HandlerId)          // the conditional UPDATE
    | Commit(h: HandlerId, result: EventId, when: int)
    | Abandon(h: HandlerId)        // crash, or exception outside process_payment
    | ResultStep(box: BoxStep)
    | Notify

  function RequestFor(o: OrderId, order: Order): PaymentRequest {
    PaymentRequest(o, order.userId, order.amount)
  }

  function ResultFor(r: PaymentRequest, success: bool): PaymentResult {
    PaymentResult(r.orderId, r.userId, success, if success then "Payment successful" else "Payment failed")
  }

  function StatusFor(success: bool): InboxStatus {
    if success then InboxProcessed else InboxFailed
  }

  function NoticeFor(r: PaymentResult): Notice {
    Notice(r.orderId, if r.success then FINISHED else CANCELLED, r.message)
  }

  predicate DebitAccepted(account: Account, seen: Account, amount: int) {
    account.balance >= amount && account.version == seen.version && account.version < MAX_VERSION
  }

  /** A handler with an open transaction has the key of its order inserted, so other inserts of it wait. */
  ghost predicate HoldsKey(s: System, h: HandlerId, o: OrderId) {
    h in s.handlers && !s.handlers[h].Checked? && s.handlers[h].request.orderId == o
  }

  /** A joined debit keeps its account row locked until the handler's transaction ends. */
  ghost predicate HoldsAccount(c: Client, s: System, h: HandlerId, u: UserId) {
    c.Joins? && h in s.handlers && s.handlers[h].Decided? && s.handlers[h].success
      && s.handlers[h].request.userId == u
  }

  ghost predicate Enabled(c: Client, s: System, st: Step) {
    match st
    case CreateOrder(o, e, u, a, d, now) => o !in s.orders && e !in s.requests.rows && -MAX_CENTS <= a <= MAX_CENTS
    case OpenAccount(u) => u !in s.accounts
    case Deposit(u, a) =>
      a > 0 && u in s.accounts && s.accounts[u].balance + a <= MAX_CENTS && s.accounts[u].version < MAX_VERSION
        && (forall h :: !HoldsAccount(c, s, h, u))
    case RequestStep(b) => BoxEnabled(s.requests, b)
    case Take(h) => h !in s.handlers && s.requests.queue != []
    case Insert(h) =>
      h in s.handlers && s.handlers[h].Checked? && s.handlers[h].request.orderId !in s.inbox
        && (forall g :: !HoldsKey(s, g, s.handlers[h].request.orderId))
    case InsertConflict(h) => h in s.handlers && s.handlers[h].Checked? && s.handlers[h].request.orderId in s.inbox
    case ReadAccount(h) =>
      !c.Refuses? && h in s.handlers && s.handlers[h].Inserted?
        && s.handlers[h].request.amount > 0 && s.handlers[h].request.userId in s.accounts
    case Reject(h) =>
      h in s.handlers && s.handlers[h].Inserted?
        && (s.handlers[h].request.amount <= 0 || (!c.Refuses? && s.handlers[h].request.userId !in s.accounts))
    case PaymentThrows(h) =>
      h in s.handlers && s.handlers[h].request.amount > 0 && (s.handlers[h].Inserted? || s.handlers[h].HasRead?)
    case Debit(h) =>
      h in s.handlers && s.handlers[h].HasRead? && s.handlers[h].request.userId in s.accounts
        && (forall g :: !HoldsAccount(c, s, g, s.handlers[h].request.userId))
    case Commit(h, e, now) =>
      h in s.handlers && s.handlers[h].Decided? && e !in s.results.rows
        && (c.Joins? && s.handlers[h].success ==> s.handlers[h].request.userId in s.accounts)
    case Abandon(h) => h in s.handlers
    case ResultStep(b) => BoxEnabled(s.results, b)
    case Notify => s.results.queue != []
  }

  function Charge(s: System, r: PaymentRequest): System
    requires r.userId in s.accounts
  {
    var a := s.accounts[r.userId];
    s.(accounts := s.accounts[r.userId := Account(a.balance - r.amount, a.version + 1)],
       ledger := s.ledger + [Debited(r.userId, r.amount, r.orderId)])
  }

  ghost function Next(c: Client, s: System, st: Step): System
    requires Enabled(c, s, st)
  {
    match st
    case CreateOrder(o, e, u, a, d, now) =>
      s.(orders := s.orders[o := Order(u, a, d, "NEW", now)],
         requests := InsertEvent(s.requests, e, PAYMENT_REQUEST, PaymentRequest(o, u, a), now))
    case OpenAccount(u) => s.(accounts := s.accounts[u := Account(0, 0)], ledger := s.ledger + [Opened(u)])
    case Deposit(u, a) =>
      s.(accounts := s.accounts[u := Account(s.accounts[u].balance + a, s.accounts[u].version + 1)],
         ledger := s.ledger + [Deposited(u, a)])
    case RequestStep(b) =>
      s.(requests := BoxNext(s.requests, b),
         lostRequests := if b.Lose? then s.lostRequests + multiset{s.requests.queue[b.i]} else s.lostRequests)
    case Take(h) =>
      var r := s.requests.queue[0];
      var s' := s.(requests := TakeMessage(s.requests));
      if r.orderId in s.inbox then s'.(duplicates := s.duplicates + multiset{r})
      else s'.(handlers := s.handlers[h := Checked(r)])
    case Insert(h) => s.(handlers := s.handlers[h := Inserted(s.handlers[h].request)])
    case InsertConflict(h) =>
      s.(handlers := s.handlers - {h}, duplicates := s.duplicates + multiset{s.handlers[h].request})
    case ReadAccount(h) =>
      var r := s.handlers[h].request;
      s.(handlers := s.handlers[h := HasRead(r, s.accounts[r.userId])])
    case Reject(h) => s.(handlers := s.handlers[h := Decided(s.handlers[h].request, false)])
    case PaymentThrows(h) => s.(handlers := s.handlers[h := Decided(s.handlers[h].request, false)])
    case Debit(h) =>
      var r := s.handlers[h].request;
      var ok := DebitAccepted(s.accounts[r.userId], s.handlers[h].seen, r.amount);
      var s' := s.(handlers := s.handlers[h := Decided(r, ok)]);
      if ok && c.Standalone? then Charge(s', r) else s'
    case Commit(h, e, now) =>
      var r, ok := s.handlers[h].request, s.handlers[h].success;
      var s' := s.(handlers := s.handlers - {h},
                   inbox := s.inbox[r.orderId := InboxRow(r, StatusFor(ok))],
                   results := InsertEvent(s.results, e, PAYMENT_RESULT, ResultFor(r, ok), now));
      if ok && c.Joins? then Charge(s', r) else s'
    case Abandon(h) =>
      s.(handlers := s.handlers - {h}, lostRequests := s.lostRequests + multiset{s.handlers[h].request})
    case ResultStep(b) =>
      s.(results := BoxNext(s.results, b),
         lostResults := if b.Lose? then s.lostResults + multiset{s.results.queue[b.i]} else s.lostResults)
    case Notify =>
      s.(results := TakeMessage(s.results), notices := s.notices + [NoticeFor(s.results.queue[0])])
  }

  // ----- runs ----------------------------------------------------------------------------------

  ghost predicate IsRun(c: Client, s: System, steps: seq<Step>)
    decreases |steps|, 0
  {
    steps == [] ||
    (IsRun(c, s, steps[..|steps| - 1]) && Enabled(c, Exec(c, s, steps[..|steps| - 1]), steps[|steps| - 1]))
  }

  ghost function Exec(c: Client, s: System, steps: seq<Step>): System
    requires IsRun(c, s, steps)
    decreases |steps|, 1
  {
    if steps == [] then s
    else Next(c, Exec(c, s, steps[..|steps| - 1]), steps[|steps| - 1])
  }

  ghost predicate Reaches(c: Client, s: System, t: System) {
    exists steps :: IsRun(c, s, steps) && Exec(c, s, steps) == t
  }

  ghost predicate Reachable(c: Client, s: System) { Reaches(c, START, s) }

  lemma ReachesItself(c: Client, s: System)
    ensures Reaches(c, s, s)
  {
    assert IsRun(c, s, []) && Exec(c, s, []) == s;
  }

  lemma ReachesStep(c: Client, s: System, t: System, st: Step)
    requires Reaches(c, s, t) && Enabled(c, t, st)
    ensures Reaches(c, s, Next(c, t, st))
  {
    var steps :| IsRun(c, s, steps) && Exec(c, s, steps) == t;
    var longer := steps + [st];
    assert longer[..|longer| - 1] == steps;
    assert IsRun(c, s, longer) && Exec(c, s, longer) == Next(c, t, st);
  }
}
