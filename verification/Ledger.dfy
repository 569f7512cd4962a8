/** Reading a ledger history: the balance, version and number of debits it implies. */
module Ledger {
  import opened Protocol

  function Change(e: Entry, u: UserId): int {
    match e
    case Opened(_) => 0
    case Deposited(v, a) => if u == v then a else 0
    case Debited(v, a, _) => if u == v then -a else 0
  }

  function Bump(e: Entry, u: UserId): nat {
    if !e.Opened? && e.user == u then 1 else 0
  }

  function BalanceOf(l: seq<Entry>, u: UserId): int {
    if l == [] then 0 else BalanceOf(l[..|l| - 1], u) + Change(l[|l| - 1], u)
  }

  function VersionOf(l: seq<Entry>, u: UserId): nat {
    if l == [] then 0 else VersionOf(l[..|l| - 1], u) + Bump(l[|l| - 1], u)
  }

  /** What was deposited, and how often. */
  function DepositSum(l: seq<Entry>, u: UserId): int {
    if l == [] then 0
    else DepositSum(l[..|l| - 1], u) + if l[|l| - 1].Deposited? then Change(l[|l| - 1], u) else 0
  }

  function DepositCount(l: seq<Entry>, u: UserId): nat {
    if l == [] then 0
    else DepositCount(l[..|l| - 1], u) + if l[|l| - 1].Deposited? then Bump(l[|l| - 1], u) else 0
  }

  function DebitsFor(l: seq<Entry>, o: OrderId): nat {
    if l == [] then 0
    else DebitsFor(l[..|l| - 1], o) + if l[|l| - 1].Debited? && l[|l| - 1].orderId == o then 1 else 0
  }

  /** Executed in this order, no prefix of the history ever leaves the column bounds. */
  ghost predicate Sequential(l: seq<Entry>) {
    forall k, u | 0 <= k <= |l| ::
      0 <= BalanceOf(l[..k], u) <= MAX_CENTS && VersionOf(l[..k], u) <= MAX_VERSION
  }

  lemma Appended(l: seq<Entry>, e: Entry)
    ensures forall u :: BalanceOf(l + [e], u) == BalanceOf(l, u) + Change(e, u)
    ensures forall u :: VersionOf(l + [e], u) == VersionOf(l, u) + Bump(e, u)
    ensures forall u :: DepositSum(l + [e], u) == DepositSum(l, u) + if e.Deposited? then Change(e, u) else 0
    ensures forall u :: DepositCount(l + [e], u) == DepositCount(l, u) + if e.Deposited? then Bump(e, u) else 0
    ensures forall o :: DebitsFor(l + [e], o) == DebitsFor(l, o) + if e.Debited? && e.orderId == o then 1 else 0
  {
    assert (l + [e])[..|l + [e]| - 1] == l;
  }

  lemma SequentialAppend(l: seq<Entry>, e: Entry)
    requires Sequential(l)
    requires forall u :: 0 <= BalanceOf(l + [e], u) <= MAX_CENTS && VersionOf(l + [e], u) <= MAX_VERSION
    ensures Sequential(l + [e])
  {
    forall k, u | 0 <= k <= |l + [e]|
      ensures 0 <= BalanceOf((l + [e])[..k], u) <= MAX_CENTS && VersionOf((l + [e])[..k], u) <= MAX_VERSION
    {
      if k <= |l| {
        assert (l + [e])[..k] == l[..k];
      } else {
        assert (l + [e])[..k] == l + [e];
      }
    }
  }
}
