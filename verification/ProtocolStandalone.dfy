/**
 * A debit that commits on a connection of its own, over every run: charges, balances and notifications differ
 * from what the inbox says by exactly the charges of abandoned handlers.
 */
module ProtocolStandalone {
  import opened Collections
  import opened Protocol
  import opened Ledger
  import opened ProtocolSafety
  import opened ProtocolTheorems

  /** An open handler that has charged this order and not yet recorded it. */
  ghost predicate HasCharged(s: System, h: HandlerId, o: OrderId) {
    h in s.handlers && s.handlers[h].Decided? && s.handlers[h].success && s.handlers[h].request.orderId == o
  }

  ghost predicate Charging(s: System, o: OrderId) {
    exists h :: HasCharged(s, h, o)
  }

  /** The debits an order should have: one if it is paid or about to be recorded as paid. */
  ghost function Due(s: System, o: OrderId): nat {
    if IsPaid(s, o) || Charging(s, o) then 1 else 0
  }

  ghost function Excess(s: System, o: OrderId): int { DebitsFor(s.ledger, o) - Due(s, o) }

  /** The crash, or the exception outside `process_payment`, that leaves a charge behind. */
  ghost predicate AbandonsCharge(s: System, st: Step) {
    st.Abandon? && st.h in s.handlers && s.handlers[st.h].Decided? && s.handlers[st.h].success
  }

  ghost function Left(s: System, st: Step, o: OrderId): nat {
    if AbandonsCharge(s, st) && s.handlers[st.h].request.orderId == o then 1 else 0
  }

  // ----- charges, step by step ------------------------------------------------------------------------------

  /** Only one handler at a time can be charging an order, and only while the order has no inbox row. */
  lemma ChargingAlone(s: System, h: HandlerId, o: OrderId)
    requires KeysInv(s) && HoldsKey(s, h, o)
    ensures !IsPaid(s, o) && (forall g :: HasCharged(s, g, o) ==> g == h)
  {
    forall g | HasCharged(s, g, o) ensures g == h {
      assert HoldsKey(s, g, o);
    }
  }

  /** Everything but handler `h` stands as before, and `o` is not the order of `h`. */
  lemma OthersStillCharging(s: System, t: System, h: HandlerId, o: OrderId)
    requires forall g | g != h ::
      (g in t.handlers <==> g in s.handlers) && (g in s.handlers ==> t.handlers[g] == s.handlers[g])
    requires h in s.handlers ==> s.handlers[h].request.orderId != o
    requires h in t.handlers ==> t.handlers[h].request.orderId != o
    ensures Charging(t, o) <==> Charging(s, o)
  {
    if g :| HasCharged(s, g, o) {
      assert HasCharged(t, g, o);
    }
    if g :| HasCharged(t, g, o) {
      assert HasCharged(s, g, o);
    }
  }

  lemma DebitCounts(s: System, h: HandlerId, o: OrderId)
    requires KeysInv(s) && Enabled(Standalone, s, Debit(h))
    ensures Excess(Next(Standalone, s, Debit(h)), o) == Excess(s, o)
  {
    var t := Next(Standalone, s, Debit(h));
    var r := s.handlers[h].request;
    if t.handlers[h].success {
      Appended(s.ledger, DebitEntry(r));
    }
    assert IsPaid(t, o) == IsPaid(s, o);
    if r.orderId != o {
      OthersStillCharging(s, t, h, o);
    } else {
      assert HoldsKey(s, h, o);
      ChargingAlone(s, h, o);
      assert !Charging(s, o);
      assert t.handlers[h].success ==> HasCharged(t, h, o);
      forall g | g != h ensures !HasCharged(t, g, o) {
        assert !HasCharged(s, g, o);
      }
    }
  }

  lemma CommitCounts(s: System, st: Step, o: OrderId)
    requires KeysInv(s) && Enabled(Standalone, s, st) && st.Commit?
    ensures Excess(Next(Standalone, s, st), o) == Excess(s, o)
  {
    var t := Next(Standalone, s, st);
    if s.handlers[st.h].request.orderId != o {
      OthersStillCharging(s, t, st.h, o);
      assert IsPaid(t, o) == IsPaid(s, o);
    } else {
      assert HoldsKey(s, st.h, o);
      ChargingAlone(s, st.h, o);
      assert s.handlers[st.h].success ==> HasCharged(s, st.h, o);
      assert forall g :: HasCharged(t, g, o) ==> HasCharged(s, g, o);
    }
  }

  lemma AbandonCounts(s: System, h: HandlerId, o: OrderId)
    requires KeysInv(s) && Enabled(Standalone, s, Abandon(h))
    ensures Excess(Next(Standalone, s, Abandon(h)), o) == Excess(s, o) + Left(s, Abandon(h), o)
  {
    var t := Next(Standalone, s, Abandon(h));
    assert IsPaid(t, o) == IsPaid(s, o);
    if s.handlers[h].request.orderId != o {
      OthersStillCharging(s, t, h, o);
    } else if AbandonsCharge(s, Abandon(h)) {
      assert HoldsKey(s, h, o) && HasCharged(s, h, o);
      ChargingAlone(s, h, o);
      assert forall g :: HasCharged(t, g, o) ==> HasCharged(s, g, o);
    } else {
      assert forall g :: HasCharged(t, g, o) <==> HasCharged(s, g, o);
    }
  }

  /** Whoever is charging stays, and nobody joins. */
  ghost predicate SameChargers(s: System, t: System) {
    forall g, o :: HasCharged(t, g, o) <==> HasCharged(s, g, o)
  }

  lemma SameChargersCount(s: System, t: System, o: OrderId)
    requires SameChargers(s, t) && DebitsFor(t.ledger, o) == DebitsFor(s.ledger, o) && t.inbox == s.inbox
    ensures Excess(t, o) == Excess(s, o)
  {
    assert forall g :: HasCharged(t, g, o) <==> HasCharged(s, g, o);
    assert IsPaid(t, o) == IsPaid(s, o);
  }

  lemma TakeCounts(s: System, h: HandlerId, o: OrderId)
    requires Enabled(Standalone, s, Take(h))
    ensures Excess(Next(Standalone, s, Take(h)), o) == Excess(s, o)
  {
    SameChargersCount(s, Next(Standalone, s, Take(h)), o);
  }

  lemma ConflictCounts(s: System, h: HandlerId, o: OrderId)
    requires Enabled(Standalone, s, InsertConflict(h))
    ensures Excess(Next(Standalone, s, InsertConflict(h)), o) == Excess(s, o)
  {
    SameChargersCount(s, Next(Standalone, s, InsertConflict(h)), o);
  }

  /** A step of one handler that neither starts nor ends a charge. */
  lemma Moves(s: System, st: Step)
    requires Enabled(Standalone, s, st)
    requires st.Insert? || st.ReadAccount? || st.Reject? || st.PaymentThrows?
    ensures
      var t := Next(Standalone, s, st);
      && st.h in s.handlers && st.h in t.handlers && t.handlers == s.handlers[st.h := t.handlers[st.h]]
      && !(s.handlers[st.h].Decided? && s.handlers[st.h].success)
      && !(t.handlers[st.h].Decided? && t.handlers[st.h].success)
      && t.ledger == s.ledger && t.inbox == s.inbox
  {
  }

  lemma MoveCounts(s: System, st: Step, o: OrderId)
    requires Enabled(Standalone, s, st)
    requires st.Insert? || st.ReadAccount? || st.Reject? || st.PaymentThrows?
    ensures Excess(Next(Standalone, s, st), o) == Excess(s, o)
  {
    Moves(s, st);
    SameChargersCount(s, Next(Standalone, s, st), o);
  }

  lemma CreditCounts(s: System, t: System, e: Entry, o: OrderId)
    requires !e.Debited? && t.ledger == s.ledger + [e] && t.inbox == s.inbox && t.handlers == s.handlers
    ensures Excess(t, o) == Excess(s, o)
  {
    Appended(s.ledger, e);
    SameChargersCount(s, t, o);
  }

  /** Steps of the other stages. */
  lemma OtherStages(s: System, st: Step)
    requires Enabled(Standalone, s, st)
    requires st.CreateOrder? || st.RequestStep? || st.ResultStep? || st.Notify?
    ensures
      var t := Next(Standalone, s, st);
      t.ledger == s.ledger && t.inbox == s.inbox && t.handlers == s.handlers
  {
  }

  /** The failing step: a charge comes loose from the inbox exactly when its handler is abandoned. */
  lemma ChargeStepExactly(s: System, st: Step, o: OrderId)
    requires KeysInv(s) && Enabled(Standalone, s, st)
    ensures Excess(Next(Standalone, s, st), o) == Excess(s, o) + Left(s, st, o)
  {
    if st.Debit? {
      DebitCounts(s, st.h, o);
    } else if st.Commit? {
      CommitCounts(s, st, o);
    } else if st.Abandon? {
      AbandonCounts(s, st.h, o);
    } else if st.OpenAccount? {
      CreditCounts(s, Next(Standalone, s, st), Opened(st.user), o);
    } else if st.Deposit? {
      CreditCounts(s, Next(Standalone, s, st), Deposited(st.user, st.cents), o);
    } else if st.Take? {
      TakeCounts(s, st.h, o);
    } else if st.InsertConflict? {
      ConflictCounts(s, st.h, o);
    } else if st.CreateOrder? || st.RequestStep? || st.ResultStep? || st.Notify? {
      OtherStages(s, st);
      SameChargersCount(s, Next(Standalone, s, st), o);
    } else {
      MoveCounts(s, st, o);
    }
  }

  // ----- charges over whole runs ------------------------------------------------------------------------------

  /** How often a run abandoned a charge of this order. */
  ghost function Abandoned(steps: seq<Step>, o: OrderId): nat
    requires IsRun(Standalone, START, steps)
    decreases |steps|
  {
    if steps == [] then 0
    else
      var front := steps[..|steps| - 1];
      Abandoned(front, o) + Left(Exec(Standalone, START, front), steps[|steps| - 1], o)
  }

  /** In every run an order has one debit if it is paid or about to be, and one for every charge abandoned. */
  lemma {:induction false} ChargesCounted(steps: seq<Step>, o: OrderId)
    requires IsRun(Standalone, START, steps)
    ensures
      var s := Exec(Standalone, START, steps);
      DebitsFor(s.ledger, o) == Due(s, o) + Abandoned(steps, o)
    decreases |steps|
  {
    if steps == [] {
      assert forall h :: !HasCharged(START, h, o);
    } else {
      var front := steps[..|steps| - 1];
      ChargesCounted(front, o);
      StartInv(Standalone);
      RunKeepsInv(Standalone, START, front);
      ChargeStepExactly(Exec(Standalone, START, front), steps[|steps| - 1], o);
    }
  }

  /** A run in which no handler is abandoned after a successful debit. */
  ghost predicate KeepsCharges(steps: seq<Step>)
    requires IsRun(Standalone, START, steps)
    decreases |steps|
  {
    steps == [] ||
    (KeepsCharges(steps[..|steps| - 1])
      && !AbandonsCharge(Exec(Standalone, START, steps[..|steps| - 1]), steps[|steps| - 1]))
  }

  ghost predicate NoneAbandoned(steps: seq<Step>)
    requires IsRun(Standalone, START, steps)
  {
    forall o :: Abandoned(steps, o) == 0
  }

  lemma AbandonedGrows(steps: seq<Step>, o: OrderId)
    requires IsRun(Standalone, START, steps) && steps != []
    ensures
      var front := steps[..|steps| - 1];
      Abandoned(steps, o) == Abandoned(front, o) + Left(Exec(Standalone, START, front), steps[|steps| - 1], o)
  {
  }

  lemma {:induction false} KeepsChargesExactly(steps: seq<Step>)
    requires IsRun(Standalone, START, steps)
    ensures KeepsCharges(steps) <==> NoneAbandoned(steps)
    decreases |steps|
  {
    if steps != [] {
      var front, last := steps[..|steps| - 1], steps[|steps| - 1];
      KeepsChargesExactly(front);
      if KeepsCharges(steps) {
        forall o ensures Abandoned(steps, o) == 0 {
          AbandonedGrows(steps, o);
          assert Abandoned(front, o) == 0;
        }
      } else if !NoneAbandoned(front) {
        var o :| Abandoned(front, o) != 0;
        AbandonedGrows(steps, o);
        assert Abandoned(steps, o) != 0;
      } else {
        var o := Exec(Standalone, START, front).handlers[last.h].request.orderId;
        AbandonedGrows(steps, o);
        assert Abandoned(steps, o) != 0;
      }
    }
  }

  ghost predicate ChargedAsDue(s: System) {
    forall o :: DebitsFor(s.ledger, o) == Due(s, o)
  }

  /** Exactly-once effect for a debit on its own connection: a run ends with every order charged once if it is
      paid or about to be, and not at all otherwise, exactly if it abandoned no charge. */
  lemma StandaloneChargesOnce(steps: seq<Step>)
    requires IsRun(Standalone, START, steps)
    ensures
      var s := Exec(Standalone, START, steps);
      && (ChargedAsDue(s) <==> KeepsCharges(steps))
      && (s.handlers == map[] ==> forall o :: Due(s, o) == if IsPaid(s, o) then 1 else 0)
  {
    var s := Exec(Standalone, START, steps);
    if s.handlers == map[] {
      assert forall h, o :: !HasCharged(s, h, o);
    }
    KeepsChargesExactly(steps);
    if KeepsCharges(steps) {
      forall o ensures DebitsFor(s.ledger, o) == Due(s, o) {
        ChargesCounted(steps, o);
        assert Abandoned(steps, o) == 0;
      }
    } else {
      var o :| Abandoned(steps, o) != 0;
      ChargesCounted(steps, o);
      assert DebitsFor(s.ledger, o) != Due(s, o);
    }
  }

  // ----- money -----------------------------------------------------------------------------------------------

  /** What an open handler has taken from an account and not yet recorded. */
  function OpenAmount(u: UserId): Handler -> int {
    (h: Handler) => if h.Decided? && h.success && h.request.userId == u then h.request.amount else 0
  }

  function OpenOnce(u: UserId): Handler -> int {
    (h: Handler) => if h.Decided? && h.success && h.request.userId == u then 1 else 0
  }

  /** Deposits, less what the inbox and the open handlers account for, less what is there. */
  ghost function Missing(s: System, u: UserId): int {
    DepositSum(s.ledger, u) - MapSum(s.inbox, PaidAmount(u)) - MapSum(s.handlers, OpenAmount(u))
      - BalanceOf(s.ledger, u)
  }

  /** The same for the versions. */
  ghost function Unexplained(s: System, u: UserId): int {
    VersionOf(s.ledger, u) - DepositCount(s.ledger, u) - MapSum(s.inbox, PaidOnce(u)) - MapSum(s.handlers, OpenOnce(u))
  }

  ghost function LeftAmount(s: System, st: Step, u: UserId): int {
    if AbandonsCharge(s, st) then OpenAmount(u)(s.handlers[st.h]) else 0
  }

  ghost function LeftOnce(s: System, st: Step, u: UserId): int {
    if AbandonsCharge(s, st) then OpenOnce(u)(s.handlers[st.h]) else 0
  }

  lemma HandlerChanges(handlers: map<HandlerId, Handler>, h: HandlerId, at: Handler, u: UserId)
    requires h in handlers
    ensures MapSum(handlers[h := at], OpenAmount(u))
         == MapSum(handlers, OpenAmount(u)) - OpenAmount(u)(handlers[h]) + OpenAmount(u)(at)
    ensures MapSum(handlers[h := at], OpenOnce(u))
         == MapSum(handlers, OpenOnce(u)) - OpenOnce(u)(handlers[h]) + OpenOnce(u)(at)
  {
    MapSumReplace(handlers, h, at, OpenAmount(u));
    MapSumReplace(handlers, h, at, OpenOnce(u));
  }

  lemma HandlerEnds(handlers: map<HandlerId, Handler>, h: HandlerId, u: UserId)
    requires h in handlers
    ensures MapSum(handlers - {h}, OpenAmount(u)) == MapSum(handlers, OpenAmount(u)) - OpenAmount(u)(handlers[h])
    ensures MapSum(handlers - {h}, OpenOnce(u)) == MapSum(handlers, OpenOnce(u)) - OpenOnce(u)(handlers[h])
  {
    MapSumRemove(handlers, h, OpenAmount(u));
    MapSumRemove(handlers, h, OpenOnce(u));
  }

  lemma DebitBalances(s: System, h: HandlerId, u: UserId)
    requires Enabled(Standalone, s, Debit(h))
    ensures
      var t := Next(Standalone, s, Debit(h));
      Missing(t, u) == Missing(s, u) && Unexplained(t, u) == Unexplained(s, u)
  {
    var t := Next(Standalone, s, Debit(h));
    HandlerChanges(s.handlers, h, t.handlers[h], u);
    assert t.handlers == s.handlers[h := t.handlers[h]] && t.inbox == s.inbox;
    if t.handlers[h].success {
      Appended(s.ledger, DebitEntry(s.handlers[h].request));
    }
  }

  lemma CommitBalances(s: System, st: Step, u: UserId)
    requires Enabled(Standalone, s, st) && st.Commit? && FirstCommit(s, st)
    ensures
      var t := Next(Standalone, s, st);
      Missing(t, u) == Missing(s, u) && Unexplained(t, u) == Unexplained(s, u)
  {
    var r, ok := s.handlers[st.h].request, s.handlers[st.h].success;
    HandlerEnds(s.handlers, st.h, u);
    MapSumInsert(s.inbox, r.orderId, InboxRow(r, StatusFor(ok)), PaidAmount(u));
    MapSumInsert(s.inbox, r.orderId, InboxRow(r, StatusFor(ok)), PaidOnce(u));
  }

  /** A handler disappears, with or without a charge. */
  lemma EndBalances(s: System, t: System, h: HandlerId, u: UserId)
    requires h in s.handlers && t.handlers == s.handlers - {h} && t.inbox == s.inbox && t.ledger == s.ledger
    ensures Missing(t, u) == Missing(s, u) + OpenAmount(u)(s.handlers[h])
    ensures Unexplained(t, u) == Unexplained(s, u) + OpenOnce(u)(s.handlers[h])
  {
    HandlerEnds(s.handlers, h, u);
  }

  lemma TakeBalances(s: System, h: HandlerId, u: UserId)
    requires Enabled(Standalone, s, Take(h))
    ensures
      var t := Next(Standalone, s, Take(h));
      Missing(t, u) == Missing(s, u) && Unexplained(t, u) == Unexplained(s, u)
  {
    MapSumInsert(s.handlers, h, Checked(s.requests.queue[0]), OpenAmount(u));
    MapSumInsert(s.handlers, h, Checked(s.requests.queue[0]), OpenOnce(u));
  }

  lemma MoveBalances(s: System, st: Step, u: UserId)
    requires Enabled(Standalone, s, st)
    requires st.Insert? || st.ReadAccount? || st.Reject? || st.PaymentThrows?
    ensures
      var t := Next(Standalone, s, st);
      Missing(t, u) == Missing(s, u) && Unexplained(t, u) == Unexplained(s, u)
  {
    Moves(s, st);
    HandlerChanges(s.handlers, st.h, Next(Standalone, s, st).handlers[st.h], u);
  }

  lemma CreditBalances(s: System, t: System, e: Entry, u: UserId)
    requires !e.Debited? && t.ledger == s.ledger + [e] && t.inbox == s.inbox && t.handlers == s.handlers
    ensures Missing(t, u) == Missing(s, u) && Unexplained(t, u) == Unexplained(s, u)
  {
    Appended(s.ledger, e);
  }

  /** Money goes missing exactly when a charge is abandoned, and exactly its amount. */
  lemma MoneyStepExactly(s: System, st: Step, u: UserId)
    requires FirstCommit(s, st) && Enabled(Standalone, s, st)
    ensures Missing(Next(Standalone, s, st), u) == Missing(s, u) + LeftAmount(s, st, u)
    ensures Unexplained(Next(Standalone, s, st), u) == Unexplained(s, u) + LeftOnce(s, st, u)
  {
    if st.Debit? {
      DebitBalances(s, st.h, u);
    } else if st.Commit? {
      CommitBalances(s, st, u);
    } else if st.Abandon? || st.InsertConflict? {
      EndBalances(s, Next(Standalone, s, st), st.h, u);
    } else if st.OpenAccount? {
      CreditBalances(s, Next(Standalone, s, st), Opened(st.user), u);
    } else if st.Deposit? {
      CreditBalances(s, Next(Standalone, s, st), Deposited(st.user, st.cents), u);
    } else if st.Take? {
      TakeBalances(s, st.h, u);
    } else if st.CreateOrder? || st.RequestStep? || st.ResultStep? || st.Notify? {
      OtherStages(s, st);
    } else {
      MoveBalances(s, st, u);
    }
  }

  /** What a run took from an account by charges it abandoned, and how often. */
  ghost function Leaked(steps: seq<Step>, u: UserId): int
    requires IsRun(Standalone, START, steps)
    decreases |steps|
  {
    if steps == [] then 0
    else
      var front := steps[..|steps| - 1];
      Leaked(front, u) + LeftAmount(Exec(Standalone, START, front), steps[|steps| - 1], u)
  }

  ghost function Leaks(steps: seq<Step>, u: UserId): int
    requires IsRun(Standalone, START, steps)
    decreases |steps|
  {
    if steps == [] then 0
    else
      var front := steps[..|steps| - 1];
      Leaks(front, u) + LeftOnce(Exec(Standalone, START, front), steps[|steps| - 1], u)
  }

  lemma RunCommitsFirst(steps: seq<Step>, st: Step)
    requires IsRun(Standalone, START, steps) && Enabled(Standalone, Exec(Standalone, START, steps), st)
    ensures FirstCommit(Exec(Standalone, START, steps), st)
  {
    StartInv(Standalone);
    RunKeepsInv(Standalone, START, steps);
    CommitsAreFirst(Standalone, Exec(Standalone, START, steps), st);
  }

  lemma {:induction false} MoneyCounted(steps: seq<Step>, u: UserId)
    requires IsRun(Standalone, START, steps)
    ensures
      var s := Exec(Standalone, START, steps);
      Missing(s, u) == Leaked(steps, u) && Unexplained(s, u) == Leaks(steps, u)
    decreases |steps|
  {
    if steps != [] {
      var front, last := steps[..|steps| - 1], steps[|steps| - 1];
      MoneyCounted(front, u);
      RunCommitsFirst(front, last);
      MoneyStepExactly(Exec(Standalone, START, front), last, u);
    }
  }

  lemma {:induction false} NoLeaksNothingLeaked(steps: seq<Step>, u: UserId)
    requires IsRun(Standalone, START, steps)
    ensures Leaks(steps, u) >= 0 && (Leaks(steps, u) == 0 ==> Leaked(steps, u) == 0)
    decreases |steps|
  {
    if steps != [] {
      NoLeaksNothingLeaked(steps[..|steps| - 1], u);
    }
  }

  /** Conservation for a debit on its own connection: in every run a balance is the deposits, less the PROCESSED
      amounts, less the charges still open, less the charges abandoned; and the version counts all four. */
  lemma StandaloneConservation(steps: seq<Step>, u: UserId)
    requires IsRun(Standalone, START, steps) && u in Exec(Standalone, START, steps).accounts
    ensures
      var s := Exec(Standalone, START, steps);
      && s.accounts[u].balance
         == DepositSum(s.ledger, u) - MapSum(s.inbox, PaidAmount(u)) - MapSum(s.handlers, OpenAmount(u))
            - Leaked(steps, u)
      && s.accounts[u].version
         == DepositCount(s.ledger, u) + MapSum(s.inbox, PaidOnce(u)) + MapSum(s.handlers, OpenOnce(u)) + Leaks(steps, u)
      && (s.handlers == map[] ==> (Conserved(s, u) <==> Leaks(steps, u) == 0))
  {
    MoneyCounted(steps, u);
    NoLeaksNothingLeaked(steps, u);
    StartInv(Standalone);
    RunKeepsInv(Standalone, START, steps);
  }

  // ----- notifications -----------------------------------------------------------------------------------------

  /** Every debit is of exactly an order's amount from exactly its user. */
  ghost predicate DebitsGenuine(s: System) {
    forall e | e in s.ledger && e.Debited? ::
      e.orderId in s.orders && e == DebitEntry(RequestFor(e.orderId, s.orders[e.orderId]))
  }

  lemma DebitsStayGenuine(s: System, st: Step)
    requires DebitsGenuine(s) && FlowInv(s) && ReadsInv(Standalone, s) && Enabled(Standalone, s, st)
    ensures DebitsGenuine(Next(Standalone, s, st))
  {
    var t := Next(Standalone, s, st);
    StepPosts(Standalone, s, st);
    OrdersStay(s, st);
    forall e | e in t.ledger && e.Debited? && e !in s.ledger
      ensures e.orderId in s.orders && e == DebitEntry(RequestFor(e.orderId, s.orders[e.orderId]))
    {
      assert Charges(Standalone, s, st) && e == DebitEntry(s.handlers[st.h].request);
      assert Genuine(s, s.handlers[st.h].request);
    }
  }

  lemma OrdersStay(s: System, st: Step)
    requires Enabled(Standalone, s, st)
    ensures
      var t := Next(Standalone, s, st);
      forall o | o in s.orders :: o in t.orders && t.orders[o] == s.orders[o]
  {
    RequestsExtend(Standalone, s, st);
  }

  lemma {:induction false} RunDebitsGenuine(steps: seq<Step>)
    requires IsRun(Standalone, START, steps)
    ensures DebitsGenuine(Exec(Standalone, START, steps))
    decreases |steps|
  {
    if steps != [] {
      var front := steps[..|steps| - 1];
      RunDebitsGenuine(front);
      StartInv(Standalone);
      RunKeepsInv(Standalone, START, front);
      DebitsStayGenuine(Exec(Standalone, START, front), steps[|steps| - 1]);
    }
  }

  lemma NotifiedIsDecided(s: System, n: Notice)
    requires NoticesInv(s) && FlowInv(s) && KeysInv(s) && n in s.notices
    ensures n.orderId in s.orders && (n.status.FINISHED? <==> IsPaid(s, n.orderId)) && !Charging(s, n.orderId)
  {
    assert Genuine(s, s.inbox[n.orderId].request);
    forall h ensures !HasCharged(s, h, n.orderId) {
      assert !HoldsKey(s, h, n.orderId);
    }
  }

  /** One notification of a state whose debits are genuine: the truth is a matter of the number of debits. */
  lemma TruthIsCount(s: System, n: Notice)
    requires NoticesInv(s) && FlowInv(s) && KeysInv(s) && DebitsGenuine(s) && n in s.notices
    ensures Truthful(s, n) <==> DebitsFor(s.ledger, n.orderId) == Due(s, n.orderId)
  {
    NotifiedIsDecided(s, n);
    if n.status.FINISHED? && DebitsFor(s.ledger, n.orderId) > 0 {
      var i := DebitIndex(s.ledger, n.orderId);
      assert s.ledger[i] in s.ledger;
    }
  }

  /** In every run a notification tells the truth exactly if no charge of its order was abandoned. */
  lemma StandaloneTruthExactly(steps: seq<Step>, n: Notice)
    requires IsRun(Standalone, START, steps) && n in Exec(Standalone, START, steps).notices
    ensures Truthful(Exec(Standalone, START, steps), n) <==> Abandoned(steps, n.orderId) == 0
  {
    RunDebitsGenuine(steps);
    StartInv(Standalone);
    RunKeepsInv(Standalone, START, steps);
    TruthIsCount(Exec(Standalone, START, steps), n);
    ChargesCounted(steps, n.orderId);
  }
}
