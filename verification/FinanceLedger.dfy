/**
 * The finance books as a value: accounts, operations, and what each balance must agree with. Amounts are
 * whole cents.
 */
module FinanceLedger {
  import opened Collections

  datatype MoneyType = Income | Expense

  datatype BankAccount = BankAccount(id: int, name: string, balance: int)

  datatype Operation = Operation(
    id: int, kind: MoneyType, account: int, amount: int, date: string, description: string, category: int)

  function AccountId(a: BankAccount): int { a.id }

  function OperationId(op: Operation): int { op.id }

  function Signed(op: Operation): int {
    if op.kind.Income? then op.amount else -op.amount
  }

  /** The part of the operations that names one account. */
  function Naming(account: int): Operation -> int {
    (op: Operation) => if op.account == account then Signed(op) else 0
  }

  ghost function Posted(ops: map<int, Operation>, account: int): int {
    MapSum(ops, Naming(account))
  }

  /** Effect on the accounts of storing or removing an operation. */
  function Booked(accounts: map<int, BankAccount>, op: Operation): map<int, BankAccount> {
    if op.account in accounts
    then accounts[op.account := accounts[op.account].(balance := accounts[op.account].balance + Signed(op))]
    else accounts
  }

  function Unbooked(accounts: map<int, BankAccount>, op: Operation): map<int, BankAccount> {
    if op.account in accounts
    then accounts[op.account := accounts[op.account].(balance := accounts[op.account].balance - Signed(op))]
    else accounts
  }

  /** `baseline` is history: each account's opening balance plus the adjustments made by `updateBalance`. */
  datatype Books = Books(
    accounts: map<int, BankAccount>, operations: map<int, Operation>, baseline: map<int, int>,
    nextAccount: int, nextOperation: int)

  const EMPTY_BOOKS: Books := Books(map[], map[], map[], 1, 1)

  datatype Command =
    | CreateAccount(name: string, start: int)
    | UpdateBalance(id: int, balance: int)
    | RemoveAccount(id: int)
    | CreateOperation(kind: MoneyType, account: int, amount: int, date: string, description: string, category: int)
    | RemoveOperation(id: int)

  /** A rejected command is one whose method throws; it changes nothing. */
  predicate Accepted(b: Books, c: Command) {
    match c
    case CreateAccount(_, _) => true
    case UpdateBalance(id, _) => id in b.accounts
    case RemoveAccount(_) => true
    case CreateOperation(_, a, amount, _, _, _) => a in b.accounts && amount >= 0
    case RemoveOperation(id) => id in b.operations
  }

  function Run(b: Books, c: Command): Books {
    if !Accepted(b, c) then b
    else
      match c
      case CreateAccount(name, start) =>
        b.(accounts := b.accounts[b.nextAccount := BankAccount(b.nextAccount, name, start)],
           baseline := b.baseline[b.nextAccount := start], nextAccount := b.nextAccount + 1)
      case UpdateBalance(id, balance) =>
        b.(accounts := b.accounts[id := b.accounts[id].(balance := balance)],
           baseline := if id in b.baseline
                       then b.baseline[id := b.baseline[id] + balance - b.accounts[id].balance] else b.baseline)
      case RemoveAccount(id) => b.(accounts := b.accounts - {id}, baseline := b.baseline - {id})
      case CreateOperation(kind, a, amount, date, description, category) =>
        var op := Operation(b.nextOperation, kind, a, amount, date, description, category);
        b.(accounts := Booked(b.accounts, op), operations := b.operations[op.id := op], nextOperation := op.id + 1)
      case RemoveOperation(id) =>
        b.(accounts := Unbooked(b.accounts, b.operations[id]), operations := b.operations - {id})
  }

  function RunAll(b: Books, commands: seq<Command>): Books {
    if commands == [] then b else Run(RunAll(b, commands[..|commands| - 1]), commands[|commands| - 1])
  }

  // ----- the ledger invariant -------------------------------------------------------------------------------

  ghost predicate Keyed(b: Books) {
    && (forall a | a in b.accounts :: b.accounts[a].id == a < b.nextAccount)
    && (forall o | o in b.operations ::
          b.operations[o].id == o < b.nextOperation && b.operations[o].account < b.nextAccount)
    && b.baseline.Keys == b.accounts.Keys
  }

  /** Each account's balance is its baseline plus the signed sum of the stored operations naming it. */
  ghost predicate Balanced(b: Books) {
    Keyed(b) && forall a | a in b.accounts :: b.accounts[a].balance == b.baseline[a] + Posted(b.operations, a)
  }

  lemma PostedAfterAdd(ops: map<int, Operation>, op: Operation, a: int)
    requires op.id !in ops
    ensures Posted(ops[op.id := op], a) == Posted(ops, a) + if op.account == a then Signed(op) else 0
  {
    MapSumInsert(ops, op.id, op, Naming(a));
  }

  lemma PostedAfterRemove(ops: map<int, Operation>, id: int, a: int)
    requires id in ops
    ensures Posted(ops - {id}, a) == Posted(ops, a) - if ops[id].account == a then Signed(ops[id]) else 0
  {
    MapSumRemove(ops, id, Naming(a));
  }

  lemma {:induction false} UnnamedIsZero(ops: map<int, Operation>, a: int)
    requires forall o | o in ops :: ops[o].account != a
    ensures Posted(ops, a) == 0
    decreases |ops|
  {
    if ops.Keys != {} {
      RemoveShrinks(ops, Pick(ops));
      UnnamedIsZero(ops - {Pick(ops)}, a);
    }
  }

  /** No command, accepted or rejected, unbalances the books. */
  lemma CommandKeepsBalance(b: Books, c: Command)
    requires Balanced(b)
    ensures Balanced(Run(b, c))
  {
    if Accepted(b, c) {
      match c
      case CreateAccount(name, start) => UnnamedIsZero(b.operations, b.nextAccount);
      case CreateOperation(kind, account, amount, date, description, category) =>
        BookingKeepsBalance(b, Operation(b.nextOperation, kind, account, amount, date, description, category));
      case RemoveOperation(id) => UnbookingKeepsBalance(b, id);
      case _ =>
    }
  }

  lemma BookingKeepsBalance(b: Books, op: Operation)
    requires Balanced(b) && op.id == b.nextOperation && op.account in b.accounts
    ensures
      Balanced(b.(accounts := Booked(b.accounts, op), operations := b.operations[op.id := op],
                  nextOperation := op.id + 1))
  {
    forall a
      ensures Posted(b.operations[op.id := op], a)
           == Posted(b.operations, a) + if op.account == a then Signed(op) else 0
    {
      PostedAfterAdd(b.operations, op, a);
    }
  }

  lemma UnbookingKeepsBalance(b: Books, id: int)
    requires Balanced(b) && id in b.operations
    ensures Balanced(b.(accounts := Unbooked(b.accounts, b.operations[id]), operations := b.operations - {id}))
  {
    var op := b.operations[id];
    forall a
      ensures Posted(b.operations - {id}, a) == Posted(b.operations, a) - if op.account == a then Signed(op) else 0
    {
      PostedAfterRemove(b.operations, id, a);
    }
  }

  lemma {:induction false} RunsStayBalanced(commands: seq<Command>)
    ensures Balanced(RunAll(EMPTY_BOOKS, commands))
  {
    if commands != [] {
      RunsStayBalanced(commands[..|commands| - 1]);
      CommandKeepsBalance(RunAll(EMPTY_BOOKS, commands[..|commands| - 1]), commands[|commands| - 1]);
    }
  }

  /** Removing the operation just created restores every account. */
  lemma RemoveUndoesCreate(b: Books, c: Command)
    requires Balanced(b) && c.CreateOperation? && Accepted(b, c)
    ensures
      var b' := Run(Run(b, c), RemoveOperation(b.nextOperation));
      b'.accounts == b.accounts && b'.operations == b.operations && b'.baseline == b.baseline
  {
  }

  // ----- the whole ledger at once --------------------------------------------------------------------------------

  function SignedAmount(): Operation -> int { (op: Operation) => Signed(op) }

  /** Operations whose account has been removed. */
  function Orphaned(accounts: set<int>): Operation -> int {
    (op: Operation) => if op.account in accounts then 0 else Signed(op)
  }

  ghost function PostedTo(ops: map<int, Operation>): BankAccount -> int {
    (a: BankAccount) => Posted(ops, a.id)
  }

  /** Summing the operations account by account misses exactly those of removed accounts. */
  lemma {:induction false} SumByAccount(accounts: map<int, BankAccount>, ops: map<int, Operation>)
    requires forall a | a in accounts :: accounts[a].id == a
    ensures MapSum(ops, SignedAmount()) == MapSum(accounts, PostedTo(ops)) + MapSum(ops, Orphaned(accounts.Keys))
    decreases |ops|
  {
    if ops.Keys == {} {
      assert forall a :: Posted(ops, a) == 0;
      ZeroSum(accounts, PostedTo(ops));
    } else {
      var k := Pick(ops);
      var op, rest := ops[k], ops - {k};
      RemoveShrinks(ops, k);
      SumByAccount(accounts, rest);
      AccountsMissOne(accounts, ops, k);
      assert MapSum(ops, SignedAmount()) == Signed(op) + MapSum(rest, SignedAmount());
    }
  }

  /** What one operation contributes to the sum over accounts. */
  lemma AccountsMissOne(accounts: map<int, BankAccount>, ops: map<int, Operation>, k: int)
    requires (forall a | a in accounts :: accounts[a].id == a) && k in ops
    ensures MapSum(accounts, PostedTo(ops))
         == MapSum(accounts, PostedTo(ops - {k})) + if ops[k].account in accounts then Signed(ops[k]) else 0
  {
    var op, rest := ops[k], ops - {k};
    forall a | a in accounts
      ensures PostedTo(ops)(accounts[a]) == PostedTo(rest)(accounts[a]) + if op.account == a then Signed(op) else 0
    {
      PostedAfterRemove(ops, k, a);
    }
    if op.account in accounts {
      MapSumDiffers(accounts, op.account, PostedTo(ops), PostedTo(rest));
    } else {
      MapSumSame(accounts, PostedTo(ops), PostedTo(rest));
    }
  }

  lemma {:induction false} ZeroSum<K, V>(m: map<K, V>, w: V -> int)
    requires forall k | k in m :: w(m[k]) == 0
    ensures MapSum(m, w) == 0
    decreases |m|
  {
    if m.Keys != {} {
      RemoveShrinks(m, Pick(m));
      ZeroSum(m - {Pick(m)}, w);
    }
  }

  function Gain(baseline: map<int, int>): BankAccount -> int {
    (a: BankAccount) => if a.id in baseline then a.balance - baseline[a.id] else 0
  }

  /** In every run the stored operations total what the accounts gained, plus the operations of removed accounts. */
  lemma TotalsAgree(commands: seq<Command>)
    ensures
      var b := RunAll(EMPTY_BOOKS, commands);
      MapSum(b.operations, SignedAmount())
        == MapSum(b.accounts, Gain(b.baseline)) + MapSum(b.operations, Orphaned(b.accounts.Keys))
  {
    var b := RunAll(EMPTY_BOOKS, commands);
    RunsStayBalanced(commands);
    SumByAccount(b.accounts, b.operations);
    MapSumSame(b.accounts, PostedTo(b.operations), Gain(b.baseline));
  }

  /** No operation is orphaned unless a command removed its account. */
  lemma {:induction false} NoOrphans(commands: seq<Command>)
    requires forall c | c in commands :: !c.RemoveAccount?
    ensures
      var b := RunAll(EMPTY_BOOKS, commands);
      forall o | o in b.operations :: b.operations[o].account in b.accounts
  {
    if commands != [] {
      NoOrphans(commands[..|commands| - 1]);
      var last := commands[|commands| - 1];
      assert last in commands;
      assert RunAll(EMPTY_BOOKS, commands[..|commands| - 1]).accounts.Keys
          <= RunAll(EMPTY_BOOKS, commands).accounts.Keys;
    }
  }

  /** While no account is removed, the operations total exactly what the accounts gained. */
  lemma TotalIsGain(commands: seq<Command>)
    requires forall c | c in commands :: !c.RemoveAccount?
    ensures
      var b := RunAll(EMPTY_BOOKS, commands);
      MapSum(b.operations, SignedAmount()) == MapSum(b.accounts, Gain(b.baseline))
  {
    var b := RunAll(EMPTY_BOOKS, commands);
    TotalsAgree(commands);
    NoOrphans(commands);
    assert forall o | o in b.operations :: b.operations[o].account in b.accounts.Keys;
    ZeroSum(b.operations, Orphaned(b.accounts.Keys));
  }

  // ----- income and expense apart ------------------------------------------------------------------------------

  function IncomeAmount(): Operation -> int { (op: Operation) => if op.kind.Income? then op.amount else 0 }

  function ExpenseAmount(): Operation -> int { (op: Operation) => if op.kind.Expense? then op.amount else 0 }

  /** A weight that vanishes outside a part of the operations and is another one on it. */
  ghost predicate OnPart(
    ops: map<int, Operation>, part: map<int, Operation>, w: Operation -> int, v: Operation -> int)
  {
    && part.Keys <= ops.Keys
    && (forall k | k in ops :: w(ops[k]) == if k in part then v(part[k]) else 0)
  }

  lemma OnPartRemove(
    ops: map<int, Operation>, part: map<int, Operation>, w: Operation -> int, v: Operation -> int, k: int)
    requires OnPart(ops, part, w, v)
    ensures OnPart(ops - {k}, part - {k}, w, v)
  {
  }

  lemma {:induction false} SumOfPart(
    ops: map<int, Operation>, part: map<int, Operation>, w: Operation -> int, v: Operation -> int)
    requires OnPart(ops, part, w, v)
    ensures MapSum(ops, w) == MapSum(part, v)
    decreases |ops|
  {
    if ops.Keys != {} {
      var k := Pick(ops);
      RemoveShrinks(ops, k);
      OnPartRemove(ops, part, w, v, k);
      SumOfPart(ops - {k}, part - {k}, w, v);
      if k in part {
        MapSumRemove(part, k, v);
      } else {
        assert part - {k} == part;
      }
    }
  }

  lemma {:induction false} SignedIsIncomeLessExpense(ops: map<int, Operation>)
    ensures MapSum(ops, SignedAmount()) == MapSum(ops, IncomeAmount()) - MapSum(ops, ExpenseAmount())
    decreases |ops|
  {
    if ops.Keys != {} {
      RemoveShrinks(ops, Pick(ops));
      SignedIsIncomeLessExpense(ops - {Pick(ops)});
    }
  }

  /** What is posted to an account is its income less its expense, each a sum of plain amounts. */
  lemma PostedIsIncomeLessExpense(ops: map<int, Operation>, a: int)
    ensures
      var named := map o | o in ops && ops[o].account == a :: ops[o];
      Posted(ops, a) == MapSum(named, IncomeAmount()) - MapSum(named, ExpenseAmount())
  {
    var named := map o | o in ops && ops[o].account == a :: ops[o];
    SumOfPart(ops, named, Naming(a), SignedAmount());
    SignedIsIncomeLessExpense(named);
  }

  // ----- where the baseline comes from ------------------------------------------------------------------------

  /** The amount an account was created with. */
  function Opening(commands: seq<Command>, a: int): int {
    if commands == [] then 0
    else
      var front, last := commands[..|commands| - 1], commands[|commands| - 1];
      if last.CreateAccount? && RunAll(EMPTY_BOOKS, front).nextAccount == a then last.start else Opening(front, a)
  }

  /** What `updateBalance` moved the account's balance by, in all. */
  function Adjustments(commands: seq<Command>, a: int): int {
    if commands == [] then 0
    else
      var front, last := commands[..|commands| - 1], commands[|commands| - 1];
      var b := RunAll(EMPTY_BOOKS, front);
      Adjustments(front, a)
        + if last.UpdateBalance? && last.id == a && a in b.accounts then last.balance - b.accounts[a].balance else 0
  }

  /** Accounts get fresh ids: nothing has happened to an account before its creation. */
  lemma {:induction false} NotYetCreated(commands: seq<Command>, a: int)
    requires a >= RunAll(EMPTY_BOOKS, commands).nextAccount
    ensures Opening(commands, a) == 0 && Adjustments(commands, a) == 0
  {
    RunsStayBalanced(commands);
    if commands != [] {
      var front := commands[..|commands| - 1];
      RunsStayBalanced(front);
      NotYetCreated(front, a);
    }
  }

  /** In every run the baseline of an account is the amount it was created with plus its adjustments. */
  lemma {:induction false} BaselineIsOpening(commands: seq<Command>, a: int)
    ensures
      var b := RunAll(EMPTY_BOOKS, commands);
      a in b.accounts ==> a in b.baseline && b.baseline[a] == Opening(commands, a) + Adjustments(commands, a)
  {
    if commands != [] {
      var front, last := commands[..|commands| - 1], commands[|commands| - 1];
      var b := RunAll(EMPTY_BOOKS, front);
      RunsStayBalanced(front);
      BaselineIsOpening(front, a);
      if last.CreateAccount? && b.nextAccount == a {
        NotYetCreated(front, a);
      }
    }
  }

  /** The ledger law with nothing left to interpret: every balance is the opening amount, plus adjustments, plus
      the income and less the expense of the stored operations naming the account. */
  lemma BalanceIsHistory(commands: seq<Command>, a: int)
    ensures
      var b := RunAll(EMPTY_BOOKS, commands);
      a in b.accounts ==>
        var named := map o | o in b.operations && b.operations[o].account == a :: b.operations[o];
        b.accounts[a].balance
          == Opening(commands, a) + Adjustments(commands, a)
             + MapSum(named, IncomeAmount()) - MapSum(named, ExpenseAmount())
  {
    RunsStayBalanced(commands);
    BaselineIsOpening(commands, a);
    PostedIsIncomeLessExpense(RunAll(EMPTY_BOOKS, commands).operations, a);
  }

  lemma {:induction false} NoAdjustments(commands: seq<Command>, a: int)
    requires forall c | c in commands :: !c.UpdateBalance?
    ensures Adjustments(commands, a) == 0
  {
    if commands != [] {
      NoAdjustments(commands[..|commands| - 1], a);
      assert commands[|commands| - 1] in commands;
    }
  }

  /** What an account gained over the amount it was created with. */
  function GainOver(commands: seq<Command>): BankAccount -> int {
    (a: BankAccount) => a.balance - Opening(commands, a.id)
  }

  /** While no account is removed and no balance overwritten, the operations total what the accounts gained over
      their opening amounts. */
  lemma TotalIsBalanceLessOpening(commands: seq<Command>)
    requires forall c | c in commands :: !c.RemoveAccount? && !c.UpdateBalance?
    ensures
      var b := RunAll(EMPTY_BOOKS, commands);
      MapSum(b.operations, SignedAmount()) == MapSum(b.accounts, GainOver(commands))
  {
    var b := RunAll(EMPTY_BOOKS, commands);
    TotalIsGain(commands);
    RunsStayBalanced(commands);
    forall a | a in b.accounts ensures Gain(b.baseline)(b.accounts[a]) == GainOver(commands)(b.accounts[a]) {
      BaselineIsOpening(commands, a);
      NoAdjustments(commands, a);
    }
    MapSumSame(b.accounts, Gain(b.baseline), GainOver(commands));
  }
}
