/**
 * Progress of the payment protocol: once faults and new orders stop, a bounded number of worker and
 * delivery steps drains every stage; if no fault ever happened, each order is then decided once and
 * notified once.
 */
module ProtocolProgress {
  import opened Collections
  import opened Outbox
  import opened OutboxProgress
  import opened Protocol
  import opened ProtocolSafety
  import opened ProtocolDelivery

  ghost predicate Work(c: Client, s: System, st: Step) {
    match st
    case RequestStep(b) => BoxWork(s.requests, b)
    case ResultStep(b) => BoxWork(s.results, b)
    case PaymentThrows(_) => c.Refuses?
    case Abandon(_) => false
    case CreateOrder(_, _, _, _, _, _) => false
    case OpenAccount(_) => false
    case Deposit(_, _) => false
    case _ => true
  }

  function HandlerLoad(h: Handler): int {
    match h
    case Checked(_) => 4
    case Inserted(_) => 3
    case HasRead(_, _) => 2
    case Decided(_, _) => 1
  }

  /** An upper bound on the working steps that are left. */
  ghost function Load(s: System): int {
    36 * BoxLoad(s.requests) + 7 * (5 * |s.requests.queue| + MapSum(s.handlers, HandlerLoad))
      + 2 * BoxLoad(s.results) + |s.results.queue|
  }

  lemma LoadNonNegative(s: System)
    ensures Load(s) >= 0
  {
    BoxLoadNonNegative(s.requests);
    BoxLoadNonNegative(s.results);
    MapSumNonNegative(s.handlers, HandlerLoad);
  }

  lemma WorkerShrinks(c: Client, s: System, st: Step)
    requires BoxInv(s.requests) && BoxInv(s.results) && Enabled(c, s, st) && Work(c, s, st)
    requires st.RequestStep? || st.ResultStep?
    ensures Load(Next(c, s, st)) < Load(s)
  {
    if st.RequestStep? {
      BoxWorkShrinks(s.requests, st.box);
    } else {
      BoxWorkShrinks(s.results, st.box);
    }
  }

  lemma TakeKeepsBoxLoad<M>(b: Box<M>)
    requires b.queue != []
    ensures BoxLoad(TakeMessage(b)) == BoxLoad(b) && |TakeMessage(b).queue| == |b.queue| - 1
  {
  }

  lemma HandOverLoad(s: System, h: HandlerId, r: PaymentRequest)
    requires h !in s.handlers
    ensures MapSum(s.handlers[h := Checked(r)], HandlerLoad) == MapSum(s.handlers, HandlerLoad) + 4
  {
    MapSumInsert(s.handlers, h, Checked(r), HandlerLoad);
  }

  lemma TakeShrinks(c: Client, s: System, h: HandlerId)
    requires Enabled(c, s, Take(h))
    ensures Load(Next(c, s, Take(h))) < Load(s)
  {
    var t := Next(c, s, Take(h));
    TakeKeepsBoxLoad(s.requests);
    HandOverLoad(s, h, s.requests.queue[0]);
    assert t.results == s.results && t.requests == TakeMessage(s.requests);
    assert t.handlers == s.handlers || t.handlers == s.handlers[h := Checked(s.requests.queue[0])];
  }

  lemma CommitShrinks(c: Client, s: System, st: Step)
    requires BoxInv(s.results) && Enabled(c, s, st) && st.Commit?
    ensures Load(Next(c, s, st)) < Load(s)
  {
    var h := s.handlers[st.h];
    MapSumRemove(s.handlers, st.h, HandlerLoad);
    InsertLoads(s.results, st.result, PAYMENT_RESULT, ResultFor(h.request, h.success), st.when);
  }

  lemma HandlerShrinks(c: Client, s: System, st: Step)
    requires Enabled(c, s, st)
    requires st.Insert? || st.InsertConflict? || st.ReadAccount? || st.Reject? || st.PaymentThrows? || st.Debit?
    ensures Load(Next(c, s, st)) < Load(s)
  {
    var t := Next(c, s, st);
    if st.InsertConflict? {
      MapSumRemove(s.handlers, st.h, HandlerLoad);
    } else {
      MapSumReplace(s.handlers, st.h, t.handlers[st.h], HandlerLoad);
      assert t.handlers == s.handlers[st.h := t.handlers[st.h]];
    }
  }

  /** Every working step lowers the load. */
  lemma WorkShrinks(c: Client, s: System, st: Step)
    requires Inv(c, s) && Enabled(c, s, st) && Work(c, s, st)
    ensures Load(Next(c, s, st)) < Load(s)
  {
    if st.RequestStep? || st.ResultStep? {
      WorkerShrinks(c, s, st);
    } else if st.Take? {
      TakeShrinks(c, s, st.h);
    } else if st.Commit? {
      CommitShrinks(c, s, st);
    } else if !st.Notify? {
      HandlerShrinks(c, s, st);
    }
  }

  // ----- something can always be done --------------------------------------------------------------------

  lemma DecidedCanCommit(c: Client, s: System, h: HandlerId) returns (st: Step)
    requires Inv(c, s) && h in s.handlers && s.handlers[h].Decided?
    ensures Enabled(c, s, st) && Work(c, s, st)
  {
    var e := FreshName(s.results.rows.Keys);
    st := Commit(h, e, 0);
  }

  lemma OpenHandlerCanMove(c: Client, s: System, h: HandlerId) returns (st: Step)
    requires Inv(c, s) && h in s.handlers && (s.handlers[h].Inserted? || s.handlers[h].HasRead?)
    requires forall g | g in s.handlers :: !s.handlers[g].Decided?
    ensures Enabled(c, s, st) && Work(c, s, st)
  {
    var r := s.handlers[h].request;
    if s.handlers[h].HasRead? {
      st := Debit(h);
    } else if r.amount <= 0 {
      st := Reject(h);
    } else if c.Refuses? {
      st := PaymentThrows(h);
    } else if r.userId in s.accounts {
      st := ReadAccount(h);
    } else {
      st := Reject(h);
    }
  }

  /** Handlers wait for each other's keys and accounts, but never in a cycle: one of them can always move. */
  lemma SomeHandlerCanMove(c: Client, s: System) returns (st: Step)
    requires Inv(c, s) && s.handlers.Keys != {}
    ensures Enabled(c, s, st) && Work(c, s, st)
  {
    if h :| h in s.handlers && s.handlers[h].Decided? {
      st := DecidedCanCommit(c, s, h);
    } else if h :| h in s.handlers && (s.handlers[h].Inserted? || s.handlers[h].HasRead?) {
      st := OpenHandlerCanMove(c, s, h);
    } else {
      var h :| h in s.handlers;
      assert s.handlers[h].Checked?;
      st := if s.handlers[h].request.orderId in s.inbox then InsertConflict(h) else Insert(h);
    }
  }

  lemma WorkAvailable(c: Client, s: System) returns (st: Step)
    requires Inv(c, s) && !Quiescent(s)
    ensures Enabled(c, s, st) && Work(c, s, st)
  {
    if BoxBusy(s.requests) {
      var b := BoxCanWork(s.requests);
      st := RequestStep(b);
    } else if BoxBusy(s.results) {
      var b := BoxCanWork(s.results);
      st := ResultStep(b);
    } else if s.handlers.Keys != {} {
      st := SomeHandlerCanMove(c, s);
    } else if s.requests.queue != [] {
      var h := FreshNumber(s.handlers.Keys);
      st := Take(h);
    } else {
      st := Notify;
    }
  }

  // ----- runs of work ----------------------------------------------------------------------------------------

  /** Money coming in from outside, which may go on for ever. */
  predicate Credits(st: Step) { st.OpenAccount? || st.Deposit? }

  /** Working steps in any order, with any deposits and new accounts between them. */
  ghost predicate IsWorkRun(c: Client, s: System, steps: seq<Step>)
    decreases |steps|
  {
    steps == [] ||
    (Enabled(c, s, steps[0]) && (Work(c, s, steps[0]) || Credits(steps[0]))
      && IsWorkRun(c, Next(c, s, steps[0]), steps[1..]))
  }

  ghost function Worked(c: Client, s: System, steps: seq<Step>): System
    requires IsWorkRun(c, s, steps)
    decreases |steps|
  {
    if steps == [] then s else Worked(c, Next(c, s, steps[0]), steps[1..])
  }

  function WorkingSteps(steps: seq<Step>): nat {
    if steps == [] then 0 else (if Credits(steps[0]) then 0 else 1) + WorkingSteps(steps[1..])
  }

  lemma CreditsKeepLoad(c: Client, s: System, st: Step)
    requires Enabled(c, s, st) && Credits(st)
    ensures Load(Next(c, s, st)) == Load(s)
  {
  }

  /** From any reachable state, whatever faults came before, at most `Load` working steps can follow, however
      many deposits are made meanwhile. */
  lemma {:induction false} WorkIsBounded(c: Client, s: System, steps: seq<Step>)
    requires Inv(c, s) && IsWorkRun(c, s, steps)
    ensures WorkingSteps(steps) + Load(Worked(c, s, steps)) <= Load(s)
    ensures Inv(c, Worked(c, s, steps))
    decreases |steps|
  {
    if steps != [] {
      if Credits(steps[0]) {
        CreditsKeepLoad(c, s, steps[0]);
      } else {
        WorkShrinks(c, s, steps[0]);
      }
      StepKeepsInv(c, s, steps[0]);
      WorkIsBounded(c, Next(c, s, steps[0]), steps[1..]);
    }
  }

  /** And some continuation of it drains every stage. */
  lemma {:induction false} Drains(c: Client, s: System) returns (steps: seq<Step>)
    requires Inv(c, s)
    ensures IsWorkRun(c, s, steps) && |steps| == WorkingSteps(steps) && Quiescent(Worked(c, s, steps))
    decreases Load(s)
  {
    LoadNonNegative(s);
    if Quiescent(s) {
      steps := [];
    } else {
      var st := WorkAvailable(c, s);
      WorkShrinks(c, s, st);
      StepKeepsInv(c, s, st);
      LoadNonNegative(Next(c, s, st));
      var rest := Drains(c, Next(c, s, st));
      steps := [st] + rest;
    }
  }

  lemma {:induction false} WorkReaches(c: Client, a: System, s: System, steps: seq<Step>)
    requires Reaches(c, a, s) && IsWorkRun(c, s, steps)
    ensures Reaches(c, a, Worked(c, s, steps))
    decreases |steps|
  {
    if steps != [] {
      ReachesStep(c, a, s, steps[0]);
      WorkReaches(c, a, Next(c, s, steps[0]), steps[1..]);
    }
  }

  ghost predicate DecidedExactly(s: System, e: EventId) {
    e in s.requests.rows ==>
      var r := s.requests.rows[e].payload;
      r.orderId in s.inbox <==> multiset(s.requests.sent)[e] > s.lostRequests[r]
  }

  ghost predicate Stuck(c: Client, s: System) {
    forall st :: Enabled(c, s, st) ==> !Work(c, s, st)
  }

  /** Once faults stop, work from any reachable state, done in any order and among any deposits until none is
      left, takes at most `Load` steps, drains every stage, and leaves undecided only orders all of whose requests
      a fault destroyed. */
  lemma Settles(c: Client, s: System, steps: seq<Step>)
    requires Reachable(c, s) && IsWorkRun(c, s, steps) && Stuck(c, Worked(c, s, steps))
    ensures
      var t := Worked(c, s, steps);
      WorkingSteps(steps) <= Load(s) && Reachable(c, t) && Quiescent(t) && (forall e :: DecidedExactly(t, e))
  {
    ReachableInv(c, s);
    WorkIsBounded(c, s, steps);
    var t := Worked(c, s, steps);
    LoadNonNegative(t);
    WorkReaches(c, START, s, steps);
    if !Quiescent(t) {
      var st := WorkAvailable(c, t);
      assert false;
    }
    forall e | e in t.requests.rows ensures DecidedExactly(t, e) {
      DecidedUnlessLost(c, t, e);
    }
  }

  // ----- runs without faults -----------------------------------------------------------------------------------

  predicate NoFault(c: Client, st: Step) {
    match st
    case RequestStep(b) => BoxFaultFree(b)
    case ResultStep(b) => BoxFaultFree(b)
    case PaymentThrows(_) => c.Refuses?
    case Abandon(_) => false
    case _ => true
  }

  ghost predicate CleanInv(s: System) {
    && CleanBox(s.requests) && CleanBox(s.results)
    && s.lostRequests == multiset{} && s.lostResults == multiset{}
  }

  /** Creating an order and taking a message leave the workers' transactions alone. */
  lemma WorkersUndisturbed(c: Client, s: System, st: Step)
    requires Enabled(c, s, st) && (st.CreateOrder? || st.Take?)
    ensures
      var b, b' := s.requests, Next(c, s, st).requests;
      && b'.batches == b.batches && b'.sent == b.sent
      && (forall e | e in b.rows :: e in b'.rows && b'.rows[e] == b.rows[e])
  {
  }

  lemma RequestsStayClean(c: Client, s: System, st: Step)
    requires BoxInv(s.requests) && CleanBox(s.requests) && Enabled(c, s, st) && NoFault(c, st)
    ensures CleanBox(Next(c, s, st).requests)
  {
    if st.RequestStep? {
      CleanStepKeepsClean(s.requests, st.box);
    } else if st.CreateOrder? || st.Take? {
      WorkersUndisturbed(c, s, st);
      CleanOtherwise(s.requests, Next(c, s, st).requests);
    } else {
      RequestsFrame(c, s, st);
    }
  }

  lemma ResultsStayClean(c: Client, s: System, st: Step)
    requires BoxInv(s.results) && CleanBox(s.results) && Enabled(c, s, st) && NoFault(c, st)
    ensures CleanBox(Next(c, s, st).results)
  {
    if st.ResultStep? {
      CleanStepKeepsClean(s.results, st.box);
    } else if st.Commit? || st.Notify? {
      CleanOtherwise(s.results, Next(c, s, st).results);
    } else {
      ResultSideFrame(c, s, st);
    }
  }

  lemma NothingLost(c: Client, s: System, st: Step)
    requires CleanInv(s) && Enabled(c, s, st) && NoFault(c, st)
    ensures Next(c, s, st).lostRequests == multiset{} && Next(c, s, st).lostResults == multiset{}
  {
    match st { case RequestStep(_) => case ResultStep(_) => case Take(_) => case Debit(_) => case _ => }
  }

  lemma {:induction false} RunStaysClean(c: Client, s: System, steps: seq<Step>)
    requires Inv(c, s) && CleanInv(s) && IsRun(c, s, steps) && (forall st | st in steps :: NoFault(c, st))
    ensures CleanInv(Exec(c, s, steps))
    decreases |steps|
  {
    if steps != [] {
      var front, last := steps[..|steps| - 1], steps[|steps| - 1];
      RunKeepsInv(c, s, front);
      RunStaysClean(c, s, front);
      RequestsStayClean(c, Exec(c, s, front), last);
      ResultsStayClean(c, Exec(c, s, front), last);
      NothingLost(c, Exec(c, s, front), last);
    }
  }

  ghost predicate NotifiedOnce(s: System, o: OrderId) {
    exists n :: multiset(s.notices)[n] == 1 && n.orderId == o
      && (forall m | m in s.notices && m.orderId == o :: m == n)
  }

  /** Without faults, once everything has drained, every order has exactly one inbox row and one notification. */
  lemma FaultFreeDelivery(c: Client, steps: seq<Step>)
    requires IsRun(c, START, steps) && (forall st | st in steps :: NoFault(c, st))
    requires Quiescent(Exec(c, START, steps))
    ensures
      var s := Exec(c, START, steps);
      s.inbox.Keys == s.orders.Keys && (forall o | o in s.orders :: NotifiedOnce(s, o))
  {
    var s := Exec(c, START, steps);
    assert Reachable(c, s);
    StartInv(c);
    RunStaysClean(c, START, steps);
    ReachableInv(c, s);
    forall o | o in s.orders ensures o in s.inbox && NotifiedOnce(s, o) {
      OrderDelivered(c, s, o);
    }
    forall o | o in s.inbox ensures o in s.orders {
      assert Genuine(s, s.inbox[o].request);
    }
  }

  lemma OrderDelivered(c: Client, s: System, o: OrderId)
    requires Reachable(c, s) && Inv(c, s) && CleanInv(s) && Quiescent(s) && o in s.orders
    ensures o in s.inbox && NotifiedOnce(s, o)
  {
    var e :| Announces(s.requests.rows, RequestKey, e, o);
    DecidedUnlessLost(c, s, e);
    assert o in s.inbox;
    var f :| Announces(s.results.rows, ResultKey, f, o);
    NotifiedPerCopy(c, s, f);
    assert multiset(s.results.sent)[f] <= 1;
    var n := NoticeFor(s.results.rows[f].payload);
    assert multiset(s.notices)[n] == 1;
  }

  /** In a clean state work is free of faults, because nothing is left to roll back; so are new orders and money. */
  lemma CleanWorkIsFaultFree(c: Client, s: System, st: Step)
    requires CleanInv(s) && Enabled(c, s, st) && (Work(c, s, st) || st.CreateOrder? || Credits(st))
    ensures NoFault(c, st)
  {
  }

  lemma OneMoreStep(c: Client, a: System, steps: seq<Step>, st: Step)
    requires IsRun(c, a, steps) && Enabled(c, Exec(c, a, steps), st)
    ensures IsRun(c, a, steps + [st]) && Exec(c, a, steps + [st]) == Next(c, Exec(c, a, steps), st)
  {
    assert (steps + [st])[..|steps + [st]| - 1] == steps;
  }

  lemma FaultFreeStep(c: Client, s: System) returns (st: Step)
    requires Inv(c, s) && CleanInv(s) && !Quiescent(s)
    ensures Enabled(c, s, st) && NoFault(c, st) && 0 <= Load(Next(c, s, st)) < Load(s)
  {
    st := WorkAvailable(c, s);
    CleanWorkIsFaultFree(c, s, st);
    WorkShrinks(c, s, st);
    LoadNonNegative(Next(c, s, st));
  }

  lemma {:induction false} FaultFreeRunsDrain(c: Client, a: System, steps: seq<Step>) returns (all: seq<Step>)
    requires Inv(c, a) && CleanInv(a) && IsRun(c, a, steps) && (forall st | st in steps :: NoFault(c, st))
    ensures steps <= all && IsRun(c, a, all) && (forall st | st in all :: NoFault(c, st))
    ensures Quiescent(Exec(c, a, all))
    decreases Load(Exec(c, a, steps))
  {
    if Quiescent(Exec(c, a, steps)) {
      all := steps;
    } else {
      var longer := FaultFreeExtension(c, a, steps);
      all := FaultFreeRunsDrain(c, a, longer);
    }
  }

  lemma FaultFreeExtension(c: Client, a: System, steps: seq<Step>) returns (longer: seq<Step>)
    requires Inv(c, a) && CleanInv(a) && IsRun(c, a, steps) && (forall st | st in steps :: NoFault(c, st))
    requires !Quiescent(Exec(c, a, steps))
    ensures steps <= longer && IsRun(c, a, longer) && (forall st | st in longer :: NoFault(c, st))
    ensures 0 <= Load(Exec(c, a, longer)) < Load(Exec(c, a, steps))
  {
    var s := Exec(c, a, steps);
    assert Inv(c, s) && CleanInv(s) by {
      RunKeepsInv(c, a, steps);
      RunStaysClean(c, a, steps);
    }
    var st := FaultFreeStep(c, s);
    longer := steps + [st];
    OneMoreStep(c, a, steps, st);
    forall x | x in longer ensures NoFault(c, x) {
      assert x in steps || x == st;
    }
  }

  /** Every run without faults goes on without faults until every order is decided once and notified once. */
  lemma FaultFreeRunsComplete(c: Client, steps: seq<Step>) returns (all: seq<Step>)
    requires IsRun(c, START, steps) && (forall st | st in steps :: NoFault(c, st))
    ensures steps <= all && IsRun(c, START, all) && (forall st | st in all :: NoFault(c, st))
    ensures
      var s := Exec(c, START, all);
      Quiescent(s) && s.inbox.Keys == s.orders.Keys && (forall o | o in s.orders :: NotifiedOnce(s, o))
  {
    StartInv(c);
    all := FaultFreeRunsDrain(c, START, steps);
    FaultFreeDelivery(c, all);
  }
}
