/**
 * The payments service as code: a database client with nested transactions, the account operations, and
 * the inbox handler. Each method is proved against a function of the tables it starts from.
 */
module PaymentsDatabase {
  import opened Collections
  import opened Outbox
  import opened Protocol

  datatype Tables = Tables(
    accounts: map<UserId, Account>, inbox: map<OrderId, InboxRow>, outbox: map<EventId, Row<PaymentResult>>)

  datatype Write =
    | PutAccount(user: UserId, account: Account)
    | PutInbox(order: OrderId, inboxRow: InboxRow)
    | PutOutbox(event: EventId, row: Row<PaymentResult>)

  function Applied(t: Tables, w: Write): Tables {
    match w
    case PutAccount(u, a) => t.(accounts := t.accounts[u := a])
    case PutInbox(o, r) => t.(inbox := t.inbox[o := r])
    case PutOutbox(e, r) => t.(outbox := t.outbox[e := r])
  }

  function AppliedAll(t: Tables, writes: seq<Write>): Tables {
    if writes == [] then t else Applied(AppliedAll(t, writes[..|writes| - 1]), writes[|writes| - 1])
  }

  lemma AppliedAppend(t: Tables, writes: seq<Write>, w: Write)
    ensures AppliedAll(t, writes + [w]) == Applied(AppliedAll(t, writes), w)
  {
    assert (writes + [w])[..|writes + [w]| - 1] == writes;
  }

  lemma AppliedOne(t: Tables, w: Write)
    ensures AppliedAll(t, []) == t && AppliedAll(t, [w]) == Applied(t, w)
  {
    AppliedAppend(t, [], w);
    assert [] + [w] == [w];
  }

  /** `open` holds the writes of the transactions in progress, outermost first. */
  class Database {
    const client: Client
    var tables: Tables
    var open: seq<seq<Write>>

    constructor (client: Client, tables: Tables)
      ensures this.client == client && this.tables == tables && open == []
    {
      this.client, this.tables, this.open := client, tables, [];
    }

    /** The rows a statement of the innermost transaction sees. */
    function Visible(): Tables
      reads this
    {
      if open == [] then tables
      else if |open| == 1 || client.Standalone? then AppliedAll(tables, open[|open| - 1])
      else AppliedAll(AppliedAll(tables, open[|open| - 2]), open[|open| - 1])
    }

    /** A query outside any transaction: one connection throws while a transaction is open; a joined one sees
        what that transaction wrote, and one of its own only what was committed. */
    method Query() returns (r: Result<Tables, string>)
      ensures r.Ok? <==> open == [] || !client.Refuses?
      ensures r.Ok? && (open == [] || client.Standalone?) ==> r.value == tables
      ensures r.Ok? && |open| == 1 && client.Joins? ==> r.value == AppliedAll(tables, open[0])
      ensures r.Ok? && client.Joins? ==> r.value == Visible()
    {
      if open != [] && client.Refuses? {
        return Error("transaction in progress");
      }
      r := Ok(if client.Standalone? then tables else Visible());
    }

    method BeginTransaction() returns (ok: bool)
      modifies this
      ensures ok <==> old(open) == [] || !client.Refuses?
      ensures tables == old(tables) && open == if ok then old(open) + [[]] else old(open)
    {
      ok := open == [] || !client.Refuses?;
      if ok {
        open := open + [[]];
      }
    }

    method Execute(w: Write)
      requires open != []
      modifies this
      ensures tables == old(tables)
      ensures open == old(open)[..|old(open)| - 1] + [old(open)[|old(open)| - 1] + [w]]
      ensures Visible() == Applied(old(Visible()), w)
    {
      AppliedAppend(if |open| == 1 || client.Standalone? then tables else AppliedAll(tables, open[|open| - 2]),
                    open[|open| - 1], w);
      open := open[..|open| - 1] + [open[|open| - 1] + [w]];
    }

    /** An inner transaction that joined hands its writes to the outer one. */
    method Commit()
      requires open != []
      modifies this
      ensures |old(open)| == 1 || client.Standalone? ==>
        tables == AppliedAll(old(tables), old(open)[|old(open)| - 1]) && open == old(open)[..|old(open)| - 1]
      ensures |old(open)| > 1 && !client.Standalone? ==>
        tables == old(tables)
        && open == old(open)[..|old(open)| - 2] + [old(open)[|old(open)| - 2] + old(open)[|old(open)| - 1]]
    {
      var writes := open[|open| - 1];
      if |open| == 1 || client.Standalone? {
        tables := AppliedAll(tables, writes);
        open := open[..|open| - 1];
      } else {
        open := open[..|open| - 2] + [open[|open| - 2] + writes];
      }
    }

    method Rollback()
      requires open != []
      modifies this
      ensures tables == old(tables) && open == old(open)[..|old(open)| - 1]
    {
      open := open[..|open| - 1];
    }
  }
}

module PaymentsService {
  import opened Collections
  import opened Outbox
  import opened Protocol
  import opened PaymentsDatabase
  import opened ProtocolClients

  function DebitOf(accounts: map<UserId, Account>, user: UserId, amount: int): Write
    requires user in accounts
  {
    PutAccount(user, Account(accounts[user].balance - amount, accounts[user].version + 1))
  }

  class PaymentService {
    const db: Database

    constructor (db: Database)
      ensures this.db == db
    {
      this.db := db;
    }

    method GetAccount(user: UserId) returns (r: Result<Account, string>)
      ensures r.Ok? <==> (db.open == [] || !db.client.Refuses?)
                         && user in (if db.client.Standalone? then db.tables else db.Visible()).accounts
      ensures r.Ok? ==> r.value == (if db.client.Standalone? then db.tables else db.Visible()).accounts[user]
    {
      var rows := db.Query();
      if rows.Error? {
        return Error(rows.error);
      }
      if user !in rows.value.accounts {
        return Error("Account not found");
      }
      r := Ok(rows.value.accounts[user]);
    }

    method CreateAccount(user: UserId) returns (r: Result<Account, string>)
      requires db.open == []
      modifies db
      ensures r.Ok? <==> user !in old(db.tables).accounts
      ensures r.Ok? ==> r.value == Account(0, 0)
      ensures db.open == []
        && db.tables == if r.Ok? then old(db.tables).(accounts := old(db.tables).accounts[user := Account(0, 0)])
                        else old(db.tables)
    {
      var rows := db.Query();
      if rows.Error? || user in rows.value.accounts {
        return Error("Account already exists");
      }
      var _ := db.BeginTransaction();
      db.Execute(PutAccount(user, Account(0, 0)));
      AppliedOne(db.tables, PutAccount(user, Account(0, 0)));
      db.Commit();
      r := GetAccount(user);
    }

    /** Fails on a non-positive amount, a missing account, or a column overflow; a failure changes nothing. */
    method Deposit(user: UserId, amount: int) returns (r: Result<Account, string>)
      requires db.open == []
      modifies db
      ensures db.open == []
      ensures
        var accounts := old(db.tables).accounts;
        r.Ok? <==> amount > 0 && user in accounts && accounts[user].balance + amount <= MAX_CENTS
                   && accounts[user].version < MAX_VERSION
      ensures r.Ok? ==>
        var a := old(db.tables).accounts[user];
        r.value == Account(a.balance + amount, a.version + 1)
          && db.tables == old(db.tables).(accounts := old(db.tables).accounts[user := r.value])
      ensures r.Error? ==> db.tables == old(db.tables)
    {
      if amount <= 0 {
        return Error("Amount must be positive");
      }
      var _ := db.BeginTransaction();
      var rows := db.Visible().accounts;
      assert rows == db.tables.accounts;
      if user !in rows {
        db.Rollback();
        return Error("Account not found");
      }
      if rows[user].balance + amount > MAX_CENTS || rows[user].version >= MAX_VERSION {
        db.Rollback();
        return Error("out of range");
      }
      var updated := Account(rows[user].balance + amount, rows[user].version + 1);
      var w := PutAccount(user, updated);
      db.Execute(w);
      AppliedOne(db.tables, w);
      assert |db.open| == 1 && db.open[|db.open| - 1] == [w];
      db.Commit();
      r := Ok(updated);
    }

    /** `throws` says that some statement raises an exception, which is caught and answered with false. */
    method ProcessPayment(user: UserId, amount: int, throws: bool) returns (ok: bool)
      requires |db.open| <= 1
      requires db.open != [] ==> AppliedAll(db.tables, db.open[0]).accounts == db.tables.accounts
      modifies db
      ensures ok <==> !throws && amount > 0 && (old(db.open) == [] || !db.client.Refuses?)
                      && user in old(db.tables).accounts && old(db.tables).accounts[user].balance >= amount
                      && old(db.tables).accounts[user].version < MAX_VERSION
      ensures !ok ==> db.tables == old(db.tables) && db.open == old(db.open)
      ensures ok && (old(db.open) == [] || db.client.Standalone?) ==>
        var a := old(db.tables).accounts[user];
        && db.tables
           == old(db.tables).(accounts := old(db.tables).accounts[user := Account(a.balance - amount, a.version + 1)])
        && db.open == old(db.open)
      ensures ok && old(db.open) != [] && db.client.Joins? ==>
        db.tables == old(db.tables)
          && db.open == [old(db.open)[0] + [DebitOf(old(db.tables).accounts, user, amount)]]
    {
      if amount <= 0 {
        return false;
      }
      var account := GetAccount(user);
      if account.Error? {
        return false;
      }
      var began := db.BeginTransaction();
      if !began {
        return false;
      }
      var rows := db.Visible().accounts;
      assert rows == old(db.tables).accounts;
      if throws || !DebitAccepted(rows[user], account.value, amount) {
        db.Rollback();
        return false;
      }
      var w := DebitOf(rows, user, amount);
      db.Execute(w);
      AppliedOne(db.tables, w);
      assert db.open[|db.open| - 1] == [w];
      db.Commit();
      ok := true;
    }
  }

  // ----- the inbox handler -------------------------------------------------------------------------------

  /** Where an exception is raised; `InsertFails` to `CommitFails` in statement order. */
  datatype Fault = NoFault | InsertFails | PaymentThrows | StatusFails | ResultFails | CommitFails

  function Record(t: Tables, r: PaymentRequest, ok: bool, result: EventId, now: int): Tables {
    t.(inbox := t.inbox[r.orderId := InboxRow(r, StatusFor(ok))],
       outbox := t.outbox[result := Row(PAYMENT_RESULT, ResultFor(r, ok), Pending, now)])
  }

  predicate Pays(c: Client, t: Tables, r: PaymentRequest, fault: Fault) {
    !fault.PaymentThrows? && PaymentSucceeds(c, t.accounts, r)
  }

  function ChargedFor(t: Tables, r: PaymentRequest, ok: bool): Tables {
    if ok && r.userId in t.accounts then Applied(t, DebitOf(t.accounts, r.userId, r.amount)) else t
  }

  /** Whether the handler's own transaction commits. */
  predicate Records(t: Tables, result: EventId, fault: Fault) {
    (fault.NoFault? || fault.PaymentThrows?) && result !in t.outbox
  }

  /** The committed tables after one message, `None` being one that does not parse. */
  function Handled(
    c: Client, t: Tables, message: Option<PaymentRequest>, result: EventId, now: int, fault: Fault): Tables
  {
    if message.None? || message.value.orderId in t.inbox || fault.InsertFails? then t
    else
      var r := message.value;
      var ok := Pays(c, t, r, fault);
      var charged := ChargedFor(t, r, ok);
      if Records(t, result, fault) then Record(charged, r, ok, result, now)
      else if c.Standalone? then charged
      else t
  }

  class InboxProcessor {
    const db: Database
    const payments: PaymentService

    constructor (db: Database, payments: PaymentService)
      requires payments.db == db
      ensures this.db == db && this.payments == payments
    {
      this.db, this.payments := db, payments;
    }

    /** The statements after the payment: final status, result event, commit. */
    method RecordDecision(r: PaymentRequest, ok: bool, result: EventId, now: int, fault: Fault)
      requires |db.open| == 1 && !fault.InsertFails?
      requires AppliedAll(db.tables, db.open[0]).outbox == db.tables.outbox
      modifies db
      ensures db.open == []
      ensures db.tables
        == if Records(old(db.tables), result, fault) then
             Record(AppliedAll(old(db.tables), old(db.open)[0]), r, ok, result, now)
           else old(db.tables)
    {
      var writes := db.open[0];
      if fault.StatusFails? {
        db.Rollback();
        return;
      }
      var decided := PutInbox(r.orderId, InboxRow(r, StatusFor(ok)));
      db.Execute(decided);
      AppliedAppend(db.tables, writes, decided);
      if fault.ResultFails? || result in db.Visible().outbox {
        db.Rollback();
        return;
      }
      var answer := PutOutbox(result, Row(PAYMENT_RESULT, ResultFor(r, ok), Pending, now));
      db.Execute(answer);
      AppliedAppend(db.tables, writes + [decided], answer);
      if fault.CommitFails? {
        db.Rollback();
        return;
      }
      db.Commit();
    }

    /** The statements up to the payment; `None` if the inbox row is refused. */
    method InsertAndPay(r: PaymentRequest, fault: Fault) returns (ok: Option<bool>)
      requires payments.db == db && db.open == []
      modifies db
      ensures ok.None? <==> fault.InsertFails? || r.orderId in old(db.tables).inbox
      ensures ok.None? ==> db.open == [] && db.tables == old(db.tables)
      ensures ok.Some? ==>
        var charged := ChargedFor(old(db.tables), r, ok.value);
        && ok.value == Pays(db.client, old(db.tables), r, fault) && |db.open| == 1
        && db.tables == (if db.client.Standalone? then charged else old(db.tables))
        && AppliedAll(db.tables, db.open[0]) == Applied(charged, PutInbox(r.orderId, InboxRow(r, InboxPending)))
    {
      ghost var before := db.tables;
      var _ := db.BeginTransaction();
      if fault.InsertFails? || r.orderId in db.Visible().inbox {
        db.Rollback();
        return None;
      }
      var pending := PutInbox(r.orderId, InboxRow(r, InboxPending));
      db.Execute(pending);
      AppliedOne(db.tables, pending);
      assert db.open == [[pending]];
      var paid := payments.ProcessPayment(r.userId, r.amount, fault.PaymentThrows?);
      if paid {
        AppliedAppend(before, [pending], DebitOf(before.accounts, r.userId, r.amount));
      }
      AppliedOne(db.tables, pending);
      ok := Some(paid);
    }

    /** A message that does not parse or answers a handled order changes nothing. A new request is recorded as
        PROCESSED if it could be paid and as FAILED otherwise, with its one result event and, if PROCESSED, its
        debit; unless a statement outside the payment throws, which leaves at most a debit committed on its own. */
    method HandlePaymentRequest(message: Option<PaymentRequest>, result: EventId, now: int, fault: Fault)
      requires payments.db == db && db.open == []
      modifies db
      ensures db.open == [] && db.tables == Handled(db.client, old(db.tables), message, result, now, fault)
      ensures message.None? || message.value.orderId in old(db.tables).inbox ==> db.tables == old(db.tables)
      ensures message.Some? && message.value.orderId !in old(db.tables).inbox ==>
        var r, t := message.value, old(db.tables);
        var payable := r.amount > 0 && r.userId in t.accounts && t.accounts[r.userId].balance >= r.amount
                       && t.accounts[r.userId].version < MAX_VERSION && !db.client.Refuses? && !fault.PaymentThrows?;
        var recorded := (fault.NoFault? || fault.PaymentThrows?) && result !in t.outbox;
        var charged := payable && (recorded || (db.client.Standalone? && !fault.InsertFails?));
        && db.tables.inbox
           == (if recorded then t.inbox[r.orderId := InboxRow(r, if payable then InboxProcessed else InboxFailed)]
               else t.inbox)
        && db.tables.outbox
           == (if recorded then
                 t.outbox[result := Row("PAYMENT_RESULT",
                   PaymentResult(r.orderId, r.userId, payable,
                                 if payable then "Payment successful" else "Payment failed"),
                   Pending, now)]
               else t.outbox)
        && db.tables.accounts
           == (if charged then
                 var a := t.accounts[r.userId];
                 t.accounts[r.userId := Account(a.balance - r.amount, a.version + 1)]
               else t.accounts)
    {
      if message.None? {
        return;
      }
      var r := message.value;
      var existing := db.Query();
      if existing.Error? || r.orderId in existing.value.inbox {
        return;
      }
      var ok := InsertAndPay(r, fault);
      if ok.Some? {
        RecordDecision(r, ok.value, result, now, fault);
      }
    }
  }
}
