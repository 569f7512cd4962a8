/** The finance application as code: in-memory repositories, the facades over them, and the analytics. */
module FinanceRepository {
  import opened Collections

  /** What `getAll` must return: every stored item once, in strictly increasing order of id. */
  ghost predicate IsListing<T>(storage: map<int, T>, idOf: T -> int, items: seq<T>) {
    && |items| == |storage|
    && (forall i | 0 <= i < |items| :: idOf(items[i]) in storage && storage[idOf(items[i])] == items[i])
    && (forall i, j | 0 <= i < j < |items| :: idOf(items[i]) < idOf(items[j]))
  }

  ghost predicate KeyedBy<T>(storage: map<int, T>, idOf: T -> int) {
    forall k | k in storage :: idOf(storage[k]) == k
  }

  function SeqSum<T>(items: seq<T>, weight: T -> int): int {
    if items == [] then 0 else SeqSum(items[..|items| - 1], weight) + weight(items[|items| - 1])
  }

  lemma PrefixGrows<T>(items: seq<T>, i: nat)
    requires i < |items|
    ensures items[..i + 1] == items[..i] + [items[i]]
  {
  }

  lemma WholePrefix<T>(items: seq<T>)
    ensures items[..|items|] == items
  {
  }

  /** Summing over a listing is summing over the storage, whatever the hash order was. */
  lemma {:induction false} ListingSum<T>(storage: map<int, T>, idOf: T -> int, items: seq<T>, weight: T -> int)
    requires IsListing(storage, idOf, items)
    ensures SeqSum(items, weight) == MapSum(storage, weight)
    decreases |items|
  {
    if items == [] {
      assert storage.Keys == {};
    } else {
      var front, last := items[..|items| - 1], items[|items| - 1];
      RemoveShrinks(storage, idOf(last));
      ListingSum(storage - {idOf(last)}, idOf, front, weight);
      MapSumRemove(storage, idOf(last), weight);
    }
  }

  /** A listing misses nothing. */
  lemma {:induction false} ListingComplete<T>(storage: map<int, T>, idOf: T -> int, items: seq<T>)
    requires KeyedBy(storage, idOf) && IsListing(storage, idOf, items)
    ensures forall k | k in storage :: storage[k] in items
    decreases |items|
  {
    if items != [] {
      var front, last := items[..|items| - 1], items[|items| - 1];
      RemoveShrinks(storage, idOf(last));
      ListingComplete(storage - {idOf(last)}, idOf, front);
      forall k | k in storage ensures storage[k] in items {
        if k != idOf(last) {
          assert (storage - {idOf(last)})[k] in front;
        }
      }
    }
  }

  /** The stored items among `keys`, in some order. */
  ghost predicate Holds<T>(storage: map<int, T>, idOf: T -> int, keys: set<int>, items: seq<T>) {
    && keys <= storage.Keys && |items| == |keys|
    && (forall i | 0 <= i < |items| :: idOf(items[i]) in keys && storage[idOf(items[i])] == items[i])
    && (forall i, j | 0 <= i < j < |items| :: idOf(items[i]) != idOf(items[j]))
  }

  ghost predicate Ascending<T>(items: seq<T>, idOf: T -> int) {
    forall i, j | 0 <= i < j < |items| :: idOf(items[i]) <= idOf(items[j])
  }

  class InMemoryRepository<T> {
    const idOf: T -> int
    var storage: map<int, T>

    constructor (idOf: T -> int)
      ensures this.idOf == idOf && storage == map[]
    {
      this.idOf, storage := idOf, map[];
    }

    method Add(item: T)
      modifies this
      ensures storage == old(storage)[idOf(item) := item]
    {
      storage := storage[idOf(item) := item];
    }

    method Update(item: T)
      modifies this
      ensures storage == old(storage)[idOf(item) := item]
    {
      storage := storage[idOf(item) := item];
    }

    method Remove(id: int)
      modifies this
      ensures storage == old(storage) - {id}
    {
      storage := storage - {id};
    }

    /** Writing back what was read changes nothing. */
    method Get(id: int) returns (r: Option<T>)
      ensures r.Some? <==> id in storage
      ensures r.Some? ==> storage[id := r.value] == storage
      ensures r.Some? && KeyedBy(storage, idOf) ==> idOf(r.value) == id
    {
      if id !in storage {
        return None;
      }
      r := Some(storage[id]);
    }

    method GetAll() returns (items: seq<T>)
      requires KeyedBy(storage, idOf)
      ensures IsListing(storage, idOf, items)
      ensures |items| == |storage| && forall k | k in storage :: storage[k] in items
      ensures forall i, j | 0 <= i < j < |items| :: idOf(items[i]) < idOf(items[j])
    {
      var unsorted := Collected();
      items := Sorted(unsorted, idOf);
      SortedIsListing(storage, idOf, unsorted, items);
      ListingComplete(storage, idOf, items);
    }

    /** The stored items in the order the hash table happens to have. */
    method Collected() returns (items: seq<T>)
      requires KeyedBy(storage, idOf)
      ensures Holds(storage, idOf, storage.Keys, items)
    {
      items := [];
      var keys: set<int> := storage.Keys;
      ghost var done: set<int> := {};
      while keys != {}
        invariant keys !! done && keys + done == storage.Keys && Holds(storage, idOf, done, items)
        decreases keys
      {
        ghost var some := Member(keys);
        var k: int :| k in keys;
        HoldsMore(storage, idOf, done, items, k);
        keys, done := keys - {k}, done + {k};
        items := items + [storage[k]];
      }
    }
  }

  ghost function Member<K>(keys: set<K>): (k: K)
    requires keys != {}
    ensures k in keys
  {
    var k :| k in keys;
    k
  }

  lemma HoldsMore<T>(storage: map<int, T>, idOf: T -> int, keys: set<int>, items: seq<T>, k: int)
    requires KeyedBy(storage, idOf) && Holds(storage, idOf, keys, items) && k in storage && k !in keys
    ensures Holds(storage, idOf, keys + {k}, items + [storage[k]])
  {
  }

  /** `std::sort` by id, here by insertion. */
  method Sorted<T>(items: seq<T>, idOf: T -> int) returns (sorted: seq<T>)
    ensures Ascending(sorted, idOf) && multiset(sorted) == multiset(items)
  {
    sorted := [];
    for i := 0 to |items|
      invariant multiset(sorted) == multiset(items[..i]) && Ascending(sorted, idOf)
    {
      assert items[..i + 1] == items[..i] + [items[i]];
      sorted := Inserted(sorted, idOf, items[i]);
    }
    assert items[..|items|] == items;
  }

  method Inserted<T>(sorted: seq<T>, idOf: T -> int, item: T) returns (longer: seq<T>)
    requires Ascending(sorted, idOf)
    ensures Ascending(longer, idOf) && multiset(longer) == multiset(sorted) + multiset{item}
  {
    var at := 0;
    while at < |sorted| && idOf(sorted[at]) <= idOf(item)
      invariant 0 <= at <= |sorted|
      invariant forall j | 0 <= j < at :: idOf(sorted[j]) <= idOf(item)
    {
      at := at + 1;
    }
    InsertKeepsOrder(sorted, idOf, at, item);
    InsertKeepsItems(sorted, at, item);
    longer := sorted[..at] + [item] + sorted[at..];
  }

  lemma InsertKeepsOrder<T>(sorted: seq<T>, idOf: T -> int, at: nat, item: T)
    requires Ascending(sorted, idOf) && at <= |sorted|
    requires forall j | 0 <= j < at :: idOf(sorted[j]) <= idOf(item)
    requires at < |sorted| ==> idOf(item) < idOf(sorted[at])
    ensures Ascending(sorted[..at] + [item] + sorted[at..], idOf)
  {
    var longer := sorted[..at] + [item] + sorted[at..];
    forall i, j | 0 <= i < j < |longer| ensures idOf(longer[i]) <= idOf(longer[j]) {
      assert i < at ==> longer[i] == sorted[i];
      assert j < at ==> longer[j] == sorted[j];
      assert i > at ==> longer[i] == sorted[i - 1];
      assert j > at ==> longer[j] == sorted[j - 1];
    }
  }

  lemma InsertKeepsItems<T>(sorted: seq<T>, at: nat, item: T)
    requires at <= |sorted|
    ensures multiset(sorted[..at] + [item] + sorted[at..]) == multiset(sorted) + multiset{item}
  {
    assert sorted == sorted[..at] + sorted[at..];
  }

  /** Sorting distinct ids gives strictly increasing ones. */
  lemma SortedIsListing<T>(storage: map<int, T>, idOf: T -> int, items: seq<T>, sorted: seq<T>)
    requires Holds(storage, idOf, storage.Keys, items)
    requires multiset(sorted) == multiset(items) && Ascending(sorted, idOf)
    ensures IsListing(storage, idOf, sorted)
  {
    assert |sorted| == |multiset(sorted)| == |multiset(items)| == |items|;
    forall i | 0 <= i < |sorted| ensures idOf(sorted[i]) in storage && storage[idOf(sorted[i])] == sorted[i] {
      assert sorted[i] in multiset(sorted);
      assert sorted[i] in items;
    }
    forall i, j | 0 <= i < j < |sorted| ensures idOf(sorted[i]) < idOf(sorted[j]) {
      if idOf(sorted[i]) == idOf(sorted[j]) {
        assert sorted[i] in multiset(items) && sorted[j] in multiset(items);
        assert sorted[i] == sorted[j];
        TwiceInSeq(sorted, i, j);
        AtMostOnce(items, idOf, sorted[i]);
        assert false;
      }
    }
  }

  lemma TwiceInSeq<T>(items: seq<T>, i: nat, j: nat)
    requires i < j < |items| && items[i] == items[j]
    ensures multiset(items)[items[i]] >= 2
  {
    assert items == items[..i] + [items[i]] + items[i + 1..j] + [items[j]] + items[j + 1..];
  }

  lemma {:induction false} AtMostOnce<T>(items: seq<T>, idOf: T -> int, item: T)
    requires forall i, j | 0 <= i < j < |items| :: idOf(items[i]) != idOf(items[j])
    ensures multiset(items)[item] <= 1
  {
    if items != [] {
      var front, last := items[..|items| - 1], items[|items| - 1];
      AtMostOnce(front, idOf, item);
      assert items == front + [last];
      if last == item {
        assert forall i | 0 <= i < |front| :: front[i] != item;
        assert item !in front;
      }
    }
  }
}

module FinanceService {
  import opened Collections
  import opened FinanceLedger
  import opened FinanceRepository

  class AccountFacade {
    const repo: InMemoryRepository<BankAccount>
    var nextId: int

    constructor (repo: InMemoryRepository<BankAccount>)
      ensures this.repo == repo && nextId == 1
    {
      this.repo, nextId := repo, 1;
    }

    method Create(name: string, start: int)
      requires repo.idOf == AccountId
      modifies this, repo
      ensures repo.storage == old(repo.storage)[old(nextId) := BankAccount(old(nextId), name, start)]
      ensures nextId == old(nextId) + 1
    {
      var account := BankAccount(nextId, name, start);
      nextId := nextId + 1;
      repo.Add(account);
    }

    method UpdateBalance(id: int, balance: int) returns (ok: bool)
      requires repo.idOf == AccountId && KeyedBy(repo.storage, AccountId)
      modifies repo
      ensures ok <==> id in old(repo.storage)
      ensures repo.storage
        == if ok then old(repo.storage)[id := old(repo.storage)[id].(balance := balance)] else old(repo.storage)
    {
      var found := repo.Get(id);
      if found.None? {
        return false;
      }
      repo.Update(found.value.(balance := balance));
      ok := true;
    }
  }

  class OperationFacade {
    const repo: InMemoryRepository<Operation>
    const accountRepo: InMemoryRepository<BankAccount>
    var nextId: int

    constructor (repo: InMemoryRepository<Operation>, accountRepo: InMemoryRepository<BankAccount>)
      ensures this.repo == repo && this.accountRepo == accountRepo && nextId == 1
    {
      this.repo, this.accountRepo, nextId := repo, accountRepo, 1;
    }

    method Create(kind: MoneyType, account: int, amount: int, date: string, description: string, category: int)
      returns (ok: bool)
      requires repo.idOf == OperationId && accountRepo.idOf == AccountId && KeyedBy(accountRepo.storage, AccountId)
      modifies this, repo, accountRepo
      ensures ok <==> account in old(accountRepo.storage) && amount >= 0
      ensures !ok ==> unchanged(this) && unchanged(repo) && unchanged(accountRepo)
      ensures ok ==>
        var op := Operation(old(nextId), kind, account, amount, date, description, category);
        repo.storage == old(repo.storage)[op.id := op] && nextId == op.id + 1
          && accountRepo.storage == Booked(old(accountRepo.storage), op)
      ensures ok ==>
        var holder := old(accountRepo.storage)[account];
        accountRepo.storage == old(accountRepo.storage)[
          account := holder.(balance := if kind.Income? then holder.balance + amount else holder.balance - amount)]
    {
      var found := accountRepo.Get(account);
      if found.None? || amount < 0 {
        return false;
      }
      var op := Operation(nextId, kind, account, amount, date, description, category);
      nextId := nextId + 1;
      repo.Add(op);
      var holder := found.value;
      if kind.Income? {
        holder := holder.(balance := holder.balance + amount);
      } else {
        holder := holder.(balance := holder.balance - amount);
      }
      assert holder.balance == found.value.balance + Signed(op) && holder.id == account;
      accountRepo.Update(holder);
      ok := true;
    }

    method Remove(id: int) returns (ok: bool)
      requires accountRepo.idOf == AccountId && KeyedBy(accountRepo.storage, AccountId)
      modifies repo, accountRepo
      ensures ok <==> id in old(repo.storage)
      ensures !ok ==> unchanged(repo) && unchanged(accountRepo)
      ensures ok ==>
        repo.storage == old(repo.storage) - {id}
          && accountRepo.storage == Unbooked(old(accountRepo.storage), old(repo.storage)[id])
      ensures ok ==>
        var op, accounts := old(repo.storage)[id], old(accountRepo.storage);
        accountRepo.storage
          == if op.account in accounts then
               var b := accounts[op.account].balance;
               accounts[op.account := accounts[op.account].(
                 balance := if op.kind.Income? then b - op.amount else b + op.amount)]
             else accounts
    {
      var stored := repo.Get(id);
      if stored.None? {
        return false;
      }
      var op := stored.value;
      var found := accountRepo.Get(op.account);
      if found.Some? {
        var holder := found.value;
        if op.kind.Income? {
          holder := holder.(balance := holder.balance - op.amount);
        } else {
          holder := holder.(balance := holder.balance + op.amount);
        }
        accountRepo.Update(holder);
      }
      repo.Remove(id);
      ok := true;
    }
  }

  /** The application's objects wired together, and the commands run against them. */
  class FinanceApp {
    const accountRepo: InMemoryRepository<BankAccount>
    const operationRepo: InMemoryRepository<Operation>
    const accounts: AccountFacade
    const operations: OperationFacade
    ghost var baseline: map<int, int>

    constructor ()
      ensures Valid() && State() == EMPTY_BOOKS
      ensures fresh(accountRepo) && fresh(operationRepo) && fresh(accounts) && fresh(operations)
    {
      var ar := new InMemoryRepository(AccountId);
      var or := new InMemoryRepository(OperationId);
      accountRepo, operationRepo := ar, or;
      accounts := new AccountFacade(ar);
      operations := new OperationFacade(or, ar);
      baseline := map[];
      new;
      assert State() == EMPTY_BOOKS;
    }

    ghost predicate Valid()
      reads this, accountRepo, operationRepo, accounts, operations
    {
      && accounts.repo == accountRepo && operations.repo == operationRepo && operations.accountRepo == accountRepo
      && accountRepo.idOf == AccountId && operationRepo.idOf == OperationId
      && Keyed(State())
    }

    ghost function State(): Books
      reads this, accountRepo, operationRepo, accounts, operations
    {
      Books(accountRepo.storage, operationRepo.storage, baseline, accounts.nextId, operations.nextId)
    }

    method Execute(c: Command) returns (accepted: bool)
      requires Valid()
      modifies this, accountRepo, operationRepo, accounts, operations
      ensures Valid() && accepted == Accepted(old(State()), c) && State() == Run(old(State()), c)
      ensures c.CreateAccount? ==>
        && accountRepo.storage
           == old(accountRepo.storage)[old(accounts.nextId) := BankAccount(old(accounts.nextId), c.name, c.start)]
        && operationRepo.storage == old(operationRepo.storage)
      ensures c.CreateOperation? && accepted ==>
        var op := Operation(old(operations.nextId), c.kind, c.account, c.amount, c.date, c.description, c.category);
        operationRepo.storage == old(operationRepo.storage)[old(operations.nextId) := op]
      ensures c.RemoveAccount? ==>
        accountRepo.storage == old(accountRepo.storage) - {c.id} && operationRepo.storage == old(operationRepo.storage)
      ensures c.RemoveOperation? && accepted ==> operationRepo.storage == old(operationRepo.storage) - {c.id}
      ensures c.UpdateBalance? && accepted ==>
        accountRepo.storage == old(accountRepo.storage)[c.id := old(accountRepo.storage)[c.id].(balance := c.balance)]
    {
      ghost var before := State();
      match c {
        case CreateAccount(name, start) =>
          accounts.Create(name, start);
          accepted := true;
        case UpdateBalance(id, balance) =>
          accepted := accounts.UpdateBalance(id, balance);
        case RemoveAccount(id) =>
          accountRepo.Remove(id);
          accepted := true;
        case CreateOperation(kind, account, amount, date, description, category) =>
          accepted := operations.Create(kind, account, amount, date, description, category);
        case RemoveOperation(id) =>
          accepted := operations.Remove(id);
      }
      baseline := Run(before, c).baseline;
      CommandKeepsKeys(before, c);
    }
  }

  lemma CommandKeepsKeys(b: Books, c: Command)
    requires Keyed(b)
    ensures Keyed(Run(b, c))
  {
  }

  // ----- analytics -------------------------------------------------------------------------------------------

  /** `operator<=` on strings. */
  predicate NotAfter(a: string, b: string) {
    a == "" || (b != "" && (a[0] < b[0] || (a[0] == b[0] && NotAfter(a[1..], b[1..]))))
  }

  /** A total order on dates, in which every string follows its prefixes. */
  lemma {:induction false} DatesAreOrdered(a: string, b: string, c: string)
    ensures NotAfter(a, b) || NotAfter(b, a)
    ensures NotAfter(a, b) && NotAfter(b, a) <==> a == b
    ensures NotAfter(a, b) && NotAfter(b, c) ==> NotAfter(a, c)
    ensures a <= b ==> NotAfter(a, b)
  {
    if a != "" && b != "" {
      assert a == [a[0]] + a[1..] && b == [b[0]] + b[1..];
      DatesAreOrdered(a[1..], b[1..], if c == "" then c else c[1..]);
    }
  }

  /** The first place where two texts differ. */
  ghost predicate FirstDifference(a: string, b: string, i: int) {
    0 <= i < |a| && i < |b| && a[i] != b[i] && a[..i] == b[..i]
  }

  lemma EqualBefore(a: string, b: string, i: int)
    requires FirstDifference(a, b, i)
    ensures forall j | 0 <= j < i :: a[j] == b[j]
  {
    assert forall j | 0 <= j < i :: a[j] == a[..i][j] == b[..i][j] == b[j];
  }

  ghost predicate SmallerAtDifference(a: string, b: string) {
    exists i :: FirstDifference(a, b, i) && a[i] < b[i]
  }

  lemma SameHead(a: string, b: string)
    requires a != "" && b != "" && a[0] == b[0]
    ensures SmallerAtDifference(a, b) <==> SmallerAtDifference(a[1..], b[1..])
    ensures a <= b <==> a[1..] <= b[1..]
  {
    var c, d := a[1..], b[1..];
    assert a == [a[0]] + c && b == [b[0]] + d;
    if i :| FirstDifference(c, d, i) && c[i] < d[i] {
      assert a[..i + 1] == [a[0]] + c[..i] && b[..i + 1] == [b[0]] + d[..i];
      assert FirstDifference(a, b, i + 1);
    }
    if i :| FirstDifference(a, b, i) && a[i] < b[i] {
      assert c[..i - 1] == a[..i][1..] && d[..i - 1] == b[..i][1..];
      assert FirstDifference(c, d, i - 1);
    }
  }

  lemma OtherHead(a: string, b: string)
    requires a != "" && b != "" && a[0] != b[0]
    ensures SmallerAtDifference(a, b) <==> a[0] < b[0]
    ensures !(a <= b)
  {
    assert FirstDifference(a, b, 0);
    forall i | FirstDifference(a, b, i) ensures i == 0 {
      EqualBefore(a, b, i);
    }
  }

  /** Lexicographic order: a prefix, or the smaller character at the first difference. */
  lemma {:induction false} NotAfterExactly(a: string, b: string)
    ensures NotAfter(a, b) <==> a <= b || exists i :: FirstDifference(a, b, i) && a[i] < b[i]
  {
    if a != "" && b != "" {
      if a[0] == b[0] {
        NotAfterExactly(a[1..], b[1..]);
        SameHead(a, b);
      } else {
        OtherHead(a, b);
      }
      assert SmallerAtDifference(a, b) <==> exists i :: FirstDifference(a, b, i) && a[i] < b[i];
    } else {
      assert a == "" ==> a <= b;
      assert a != "" ==> !(a <= b);
    }
  }

  /** Dates written YYYY-MM-DD. */
  predicate IsDate(s: string) {
    |s| == 10 && s[4] == '-' && s[7] == '-' && (forall i | 0 <= i < 10 && i != 4 && i != 7 :: '0' <= s[i] <= '9')
  }

  function DigitAt(s: string, i: nat): int
    requires i < |s|
  {
    s[i] as int - '0' as int
  }

  function Year(s: string): int
    requires IsDate(s)
  {
    1000 * DigitAt(s, 0) + 100 * DigitAt(s, 1) + 10 * DigitAt(s, 2) + DigitAt(s, 3)
  }

  function Month(s: string): int
    requires IsDate(s)
  {
    10 * DigitAt(s, 5) + DigitAt(s, 6)
  }

  function Day(s: string): int
    requires IsDate(s)
  {
    10 * DigitAt(s, 8) + DigitAt(s, 9)
  }

  /** Numeric order of year, month and day. */
  predicate Chronological(a: string, b: string)
    requires IsDate(a) && IsDate(b)
  {
    Year(a) < Year(b)
    || (Year(a) == Year(b) && (Month(a) < Month(b) || (Month(a) == Month(b) && Day(a) <= Day(b))))
  }

  lemma SmallerAtFirstDifference(a: string, b: string, i: int)
    requires IsDate(a) && IsDate(b) && FirstDifference(a, b, i) && a[i] < b[i]
    ensures Chronological(a, b) && !Chronological(b, a)
  {
    EqualBefore(a, b, i);
    assert i != 4 && i != 7;
  }

  lemma PrefixOfSameLength(a: string, b: string)
    requires |a| == |b|
    ensures a <= b <==> a == b
  {
  }

  lemma EarlierIsChronological(a: string, b: string)
    requires IsDate(a) && IsDate(b) && a != b && NotAfter(a, b)
    ensures Chronological(a, b) && !Chronological(b, a)
  {
    NotAfterExactly(a, b);
    PrefixOfSameLength(a, b);
    var i :| FirstDifference(a, b, i) && a[i] < b[i];
    SmallerAtFirstDifference(a, b, i);
  }

  /** On dates the comparison of texts is the order of time. */
  lemma DateOrderIsChronological(a: string, b: string)
    requires IsDate(a) && IsDate(b)
    ensures NotAfter(a, b) <==> Chronological(a, b)
  {
    DatesAreOrdered(a, b, b);
    if a != b {
      if NotAfter(a, b) {
        EarlierIsChronological(a, b);
      } else {
        EarlierIsChronological(b, a);
      }
    }
  }

  predicate InRange(op: Operation, from: string, to: string) {
    NotAfter(from, op.date) && NotAfter(op.date, to)
  }

  /** An operation is in a range of dates from its first to its last day, both included. */
  lemma InRangeIsChronological(op: Operation, from: string, to: string)
    requires IsDate(op.date) && IsDate(from) && IsDate(to)
    ensures InRange(op, from, to) <==> Chronological(from, op.date) && Chronological(op.date, to)
  {
    DateOrderIsChronological(from, op.date);
    DateOrderIsChronological(op.date, to);
  }

  function RangeAmount(from: string, to: string): Operation -> int {
    (op: Operation) => if InRange(op, from, to) then Signed(op) else 0
  }

  function CategoryAmount(from: string, to: string, category: int): Operation -> int {
    (op: Operation) => if InRange(op, from, to) && op.category == category then Signed(op) else 0
  }

  function Itself(): int -> int { (x: int) => x }

  class AnalyticsFacade {
    const repo: InMemoryRepository<Operation>

    constructor (repo: InMemoryRepository<Operation>)
      ensures this.repo == repo
    {
      this.repo := repo;
    }

    method IncomeMinusExpense(from: string, to: string) returns (r: int)
      requires KeyedBy(repo.storage, repo.idOf)
      ensures r == MapSum(repo.storage, RangeAmount(from, to))
      ensures
        var inside := map k | k in repo.storage && InRange(repo.storage[k], from, to) :: repo.storage[k];
        r == MapSum(inside, IncomeAmount()) - MapSum(inside, ExpenseAmount())
    {
      var income, expense := 0, 0;
      var items := repo.GetAll();
      for i := 0 to |items|
        invariant income - expense == SeqSum(items[..i], RangeAmount(from, to))
      {
        assert items[..i + 1][..i] == items[..i];
        if InRange(items[i], from, to) {
          if items[i].kind.Income? {
            income := income + items[i].amount;
          } else {
            expense := expense + items[i].amount;
          }
        }
      }
      assert items[..|items|] == items;
      ListingSum(repo.storage, repo.idOf, items, RangeAmount(from, to));
      RangeIsIncomeLessExpense(repo.storage, from, to);
      r := income - expense;
    }

    method SumByCategory(from: string, to: string) returns (res: map<int, int>)
      requires KeyedBy(repo.storage, repo.idOf)
      ensures forall c :: c in res <==> exists k :: k in repo.storage && Counts(repo.storage[k], from, to, c)
      ensures forall c | c in res :: res[c] == Net(Counted(repo.storage, from, to, c))
      ensures MapSum(res, Itself()) == MapSum(repo.storage, RangeAmount(from, to))
    {
      var items := repo.GetAll();
      res := CategoryLoop(items, from, to);
      SumsOfListing(res, repo.storage, repo.idOf, items, from, to);
    }

    /** The loop over the listing. */
    static method CategoryLoop(items: seq<Operation>, from: string, to: string) returns (res: map<int, int>)
      ensures CategorySums(res, items, from, to)
    {
      res := map[];
      for i := 0 to |items|
        invariant CategorySums(res, items[..i], from, to)
      {
        PrefixGrows(items, i);
        SumsExtend(res, items[..i], items[i], from, to);
        if InRange(items[i], from, to) {
          res := AddedTo(res, items[i]);
        }
      }
      WholePrefix(items);
    }
  }

  lemma RangeIsIncomeLessExpense(ops: map<int, Operation>, from: string, to: string)
    ensures
      var inside := map k | k in ops && InRange(ops[k], from, to) :: ops[k];
      MapSum(ops, RangeAmount(from, to)) == MapSum(inside, IncomeAmount()) - MapSum(inside, ExpenseAmount())
  {
    var inside := map k | k in ops && InRange(ops[k], from, to) :: ops[k];
    SumOfPart(ops, inside, RangeAmount(from, to), SignedAmount());
    SignedIsIncomeLessExpense(inside);
  }

  /** The stored operations that count for a category. */
  function Counted(ops: map<int, Operation>, from: string, to: string, c: int): (part: map<int, Operation>)
    ensures forall k :: k in part <==> k in ops && Counts(ops[k], from, to, c)
    ensures forall k | k in part :: part[k] == ops[k]
  {
    map k | k in ops && Counts(ops[k], from, to, c) :: ops[k]
  }

  /** Income less expense, each a sum of plain amounts. */
  ghost function Net(ops: map<int, Operation>): (r: int)
    ensures r == MapSum(ops, IncomeAmount()) - MapSum(ops, ExpenseAmount())
  {
    MapSum(ops, IncomeAmount()) - MapSum(ops, ExpenseAmount())
  }

  lemma CategoryIsIncomeLessExpense(ops: map<int, Operation>, from: string, to: string, c: int)
    ensures MapSum(ops, CategoryAmount(from, to, c)) == Net(Counted(ops, from, to, c))
  {
    SumOfPart(ops, Counted(ops, from, to, c), CategoryAmount(from, to, c), SignedAmount());
    SignedIsIncomeLessExpense(Counted(ops, from, to, c));
  }

  predicate Counts(op: Operation, from: string, to: string, category: int) {
    InRange(op, from, to) && op.category == category
  }

  /** Whatever the texts are: an operation is left out exactly if its date is strictly before the range or strictly
      after it, and counts for its own category only. */
  lemma LeftOutExactly(op: Operation, from: string, to: string, category: int)
    ensures
      var inside := (op.date == from || !NotAfter(op.date, from)) && (op.date == to || !NotAfter(to, op.date));
      (InRange(op, from, to) <==> inside) && (Counts(op, from, to, category) <==> inside && op.category == category)
  {
    DatesAreOrdered(op.date, from, from);
    DatesAreOrdered(op.date, to, to);
  }

  /** `res[op.category_id] += ...`, an absent entry counting as zero. */
  function AddedTo(res: map<int, int>, op: Operation): map<int, int> {
    res[op.category := (if op.category in res then res[op.category] else 0) + Signed(op)]
  }

  ghost predicate Occurs(items: seq<Operation>, from: string, to: string, category: int) {
    exists op :: op in items && Counts(op, from, to, category)
  }

  /** The sums are those of the operations walked so far. */
  ghost predicate CategorySums(res: map<int, int>, done: seq<Operation>, from: string, to: string) {
    && (forall c :: c in res <==> Occurs(done, from, to, c))
    && (forall c :: SeqSum(done, CategoryAmount(from, to, c)) == if c in res then res[c] else 0)
    && MapSum(res, Itself()) == SeqSum(done, RangeAmount(from, to))
  }

  lemma CountedExtend(done: seq<Operation>, op: Operation, from: string, to: string, c: int)
    ensures Occurs(done + [op], from, to, c) <==> Occurs(done, from, to, c) || Counts(op, from, to, c)
  {
    assert op in done + [op];
    assert forall o | o in done :: o in done + [op];
  }

  lemma SeqSumExtend<T>(done: seq<T>, item: T, weight: T -> int)
    ensures SeqSum(done + [item], weight) == SeqSum(done, weight) + weight(item)
  {
    assert (done + [item])[..|done + [item]| - 1] == done;
  }

  lemma AddedToSum(res: map<int, int>, op: Operation)
    ensures MapSum(AddedTo(res, op), Itself()) == MapSum(res, Itself()) + Signed(op)
  {
    if op.category in res {
      MapSumReplace(res, op.category, res[op.category] + Signed(op), Itself());
    } else {
      MapSumInsert(res, op.category, Signed(op), Itself());
    }
  }

  lemma SumsExtend(res: map<int, int>, done: seq<Operation>, op: Operation, from: string, to: string)
    requires CategorySums(res, done, from, to)
    ensures CategorySums(if InRange(op, from, to) then AddedTo(res, op) else res, done + [op], from, to)
  {
    forall c
      ensures Occurs(done + [op], from, to, c) <==> Occurs(done, from, to, c) || Counts(op, from, to, c)
      ensures SeqSum(done + [op], CategoryAmount(from, to, c))
           == SeqSum(done, CategoryAmount(from, to, c)) + CategoryAmount(from, to, c)(op)
    {
      CountedExtend(done, op, from, to, c);
      SeqSumExtend(done, op, CategoryAmount(from, to, c));
    }
    SeqSumExtend(done, op, RangeAmount(from, to));
    AddedToSum(res, op);
  }

  lemma CountedInListing(
    storage: map<int, Operation>, idOf: Operation -> int, items: seq<Operation>, from: string, to: string, c: int)
    requires KeyedBy(storage, idOf) && IsListing(storage, idOf, items)
    ensures Occurs(items, from, to, c) <==> exists k :: k in storage && Counts(storage[k], from, to, c)
  {
    ListingComplete(storage, idOf, items);
    if op :| op in items && Counts(op, from, to, c) {
      var i :| 0 <= i < |items| && items[i] == op;
      assert idOf(items[i]) in storage;
    }
  }

  lemma SumsOfListing(
    res: map<int, int>, storage: map<int, Operation>, idOf: Operation -> int, items: seq<Operation>,
    from: string, to: string)
    requires KeyedBy(storage, idOf) && IsListing(storage, idOf, items) && CategorySums(res, items, from, to)
    ensures forall c :: c in res <==> exists k :: k in storage && Counts(storage[k], from, to, c)
    ensures forall c | c in res :: res[c] == Net(Counted(storage, from, to, c))
    ensures MapSum(res, Itself()) == MapSum(storage, RangeAmount(from, to))
  {
    ListingSum(storage, idOf, items, RangeAmount(from, to));
    forall c
      ensures SeqSum(items, CategoryAmount(from, to, c)) == Net(Counted(storage, from, to, c))
      ensures Occurs(items, from, to, c) <==> exists k :: k in storage && Counts(storage[k], from, to, c)
    {
      ListingSum(storage, idOf, items, CategoryAmount(from, to, c));
      CategoryIsIncomeLessExpense(storage, from, to, c);
      CountedInListing(storage, idOf, items, from, to, c);
    }
  }

  /** Over a range that covers every stored date, income minus expense is what the accounts gained. */
  lemma FullRangeIsGain(commands: seq<Command>, from: string, to: string)
    requires forall c | c in commands :: !c.RemoveAccount?
    requires
      var ops := RunAll(EMPTY_BOOKS, commands).operations;
      forall o | o in ops :: InRange(ops[o], from, to)
    ensures
      var b := RunAll(EMPTY_BOOKS, commands);
      MapSum(b.operations, RangeAmount(from, to)) == MapSum(b.accounts, Gain(b.baseline))
  {
    TotalIsGain(commands);
    FullRange(RunAll(EMPTY_BOOKS, commands).operations, from, to);
  }

  /** And, if `updateBalance` was not used either, the sum over the accounts of balance minus opening amount. */
  lemma FullRangeIsBalanceLessOpening(commands: seq<Command>, from: string, to: string)
    requires forall c | c in commands :: !c.RemoveAccount? && !c.UpdateBalance?
    requires
      var ops := RunAll(EMPTY_BOOKS, commands).operations;
      forall o | o in ops :: InRange(ops[o], from, to)
    ensures
      var b := RunAll(EMPTY_BOOKS, commands);
      MapSum(b.operations, RangeAmount(from, to)) == MapSum(b.accounts, GainOver(commands))
  {
    TotalIsBalanceLessOpening(commands);
    FullRange(RunAll(EMPTY_BOOKS, commands).operations, from, to);
  }

  lemma FullRange(ops: map<int, Operation>, from: string, to: string)
    requires forall o | o in ops :: InRange(ops[o], from, to)
    ensures MapSum(ops, RangeAmount(from, to)) == MapSum(ops, SignedAmount())
  {
    assert forall o | o in ops :: InRange(ops[o], from, to);
    MapSumSame(ops, RangeAmount(from, to), SignedAmount());
  }
}
