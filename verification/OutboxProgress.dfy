/** How much work an outbox still has, and that every working step does some of it. */
module OutboxProgress {
  import opened Collections
  import opened Outbox

  /** Steps that get events published: a failed transaction can only be rolled back. */
  ghost predicate BoxWork<M>(b: Box<M>, st: BoxStep) {
    match st
    case Begin(_, events) => events != []
    case Publish(_) => true
    case CommitBatch(_) => true
    case Rollback(w) => w in b.batches && b.batches[w].poisoned
    case _ => false
  }

  /** Rows a batch will give back unpublished count as if they were still available. */
  function BatchWeight(t: Batch): int {
    if t.poisoned then 1 + 3 * |t.events|
    else if |t.marked| <= t.next <= |t.events| then 1 + (|t.events| - t.next) + 3 * (t.next - |t.marked|)
    else 0
  }

  ghost function BoxLoad<M>(b: Box<M>): int {
    3 * |Available(b.rows, Locked(b.batches))| + MapSum(b.batches, BatchWeight)
  }

  lemma BoxLoadNonNegative<M>(b: Box<M>)
    ensures BoxLoad(b) >= 0
  {
    MapSumNonNegative(b.batches, BatchWeight);
  }

  lemma MarkedFit<M>(b: Box<M>, w: WorkerId)
    requires BoxInv(b) && w in b.batches
    ensures |b.batches[w].marked| <= b.batches[w].next <= |b.batches[w].events|
    ensures |Elements(b.batches[w].events)| == |b.batches[w].events|
  {
    var t := b.batches[w];
    assert BatchOk(b, t);
    DistinctCardinality(t.events[..t.next]);
    DistinctCardinality(t.events);
    SubsetCardinality(t.marked, Elements(t.events[..t.next]));
  }

  lemma SubsetCardinality<T>(a: set<T>, b: set<T>)
    requires a <= b
    ensures |a| <= |b| && |b - a| == |b| - |a|
  {
    assert b == a + (b - a);
  }

  lemma LockedBy(batches: map<WorkerId, Batch>, w: WorkerId)
    requires w in batches
    ensures Locked(batches) == Locked(batches - {w}) + Elements(batches[w].events)
  {
    var rest := batches - {w};
    forall e | e in Locked(batches) ensures e in Locked(rest) || e in Elements(batches[w].events) {
      var v :| v in batches && e in batches[v].events;
      if v != w { assert v in rest && e in rest[v].events; }
    }
    forall e | e in Locked(rest) || e in Elements(batches[w].events) ensures e in Locked(batches) {
      if e in Locked(rest) {
        var v :| v in rest && e in rest[v].events;
        assert v in batches && e in batches[v].events;
      }
    }
  }

  lemma BeginLocks<M>(b: Box<M>, w: WorkerId, t: Batch)
    requires w !in b.batches
    ensures Available(b.rows, Locked(b.batches[w := t])) == Available(b.rows, Locked(b.batches)) - Elements(t.events)
  {
    LockedBy(b.batches[w := t], w);
    assert b.batches[w := t] - {w} == b.batches;
  }

  lemma BatchTakes<M>(rows: map<EventId, Row<M>>, locked: set<EventId>, events: seq<EventId>)
    requires IsBatch(rows, locked, events)
    ensures |Available(rows, locked) - Elements(events)| == |Available(rows, locked)| - |events|
  {
    DistinctCardinality(events);
    SubsetCardinality(Elements(events), Available(rows, locked));
  }

  lemma BeginWorks<M>(b: Box<M>, w: WorkerId, events: seq<EventId>)
    requires BoxEnabled(b, Begin(w, events)) && events != []
    ensures BoxLoad(BoxNext(b, Begin(w, events))) < BoxLoad(b)
  {
    BeginLocks(b, w, Batch(events, 0, {}, false));
    BatchTakes(b.rows, Locked(b.batches), events);
    MapSumInsert(b.batches, w, Batch(events, 0, {}, false), BatchWeight);
  }

  lemma PublishLocks<M>(b: Box<M>, w: WorkerId, t: Batch)
    requires w in b.batches && t.events == b.batches[w].events
    ensures Locked(b.batches[w := t]) == Locked(b.batches)
  {
    LockedBy(b.batches, w);
    LockedBy(b.batches[w := t], w);
    assert b.batches[w := t] - {w} == b.batches - {w};
  }

  lemma PublishLightens<M>(b: Box<M>, w: WorkerId)
    requires BoxInv(b) && BoxEnabled(b, Publish(w))
    ensures BatchWeight(BoxNext(b, Publish(w)).batches[w]) == BatchWeight(b.batches[w]) - 1
  {
    var t := b.batches[w];
    MarkedFit(b, w);
    assert t.events[t.next] !in t.marked by {
      assert BatchOk(b, t);
      assert t.events[t.next] !in Elements(t.events[..t.next]);
    }
  }

  lemma PublishWorks<M>(b: Box<M>, w: WorkerId)
    requires BoxInv(b) && BoxEnabled(b, Publish(w))
    ensures BoxLoad(BoxNext(b, Publish(w))) == BoxLoad(b) - 1
  {
    var t := BoxNext(b, Publish(w)).batches[w];
    PublishLightens(b, w);
    PublishLocks(b, w, t);
    MapSumReplace(b.batches, w, t, BatchWeight);
  }

  lemma ReleaseFrees<M>(b: Box<M>, w: WorkerId)
    requires BoxInv(b) && w in b.batches
    ensures Locked(b.batches) == Locked(b.batches - {w}) + Elements(b.batches[w].events)
    ensures Locked(b.batches - {w}) !! Elements(b.batches[w].events)
  {
    LockedBy(b.batches, w);
    forall e | e in Locked(b.batches - {w}) ensures e !in Elements(b.batches[w].events) {
      var v :| v in b.batches - {w} && e in b.batches[v].events;
      assert e in Elements(b.batches[v].events);
    }
  }

  lemma RollbackFrees<M>(b: Box<M>, w: WorkerId)
    requires BoxInv(b) && w in b.batches
    ensures Available(b.rows, Locked(b.batches - {w}))
         == Available(b.rows, Locked(b.batches)) + Elements(b.batches[w].events)
  {
    ReleaseFrees(b, w);
    assert BatchOk(b, b.batches[w]);
  }

  lemma RollbackWorks<M>(b: Box<M>, w: WorkerId)
    requires BoxInv(b) && w in b.batches && b.batches[w].poisoned
    ensures BoxLoad(BoxNext(b, Rollback(w))) < BoxLoad(b)
  {
    RollbackFrees(b, w);
    MarkedFit(b, w);
    MapSumRemove(b.batches, w, BatchWeight);
    UnionCardinality(Available(b.rows, Locked(b.batches)), Elements(b.batches[w].events));
    assert BoxNext(b, Rollback(w)) == b.(batches := b.batches - {w});
  }

  lemma UnionCardinality<T>(a: set<T>, b: set<T>)
    ensures |a + b| <= |a| + |b|
  {
    assert a + b == a + (b - a);
    SubsetCardinality(b - a, b);
  }

  lemma CommitFrees<M>(b: Box<M>, w: WorkerId)
    requires BoxInv(b) && w in b.batches
    ensures Available(Mark(b.rows, b.batches[w].marked), Locked(b.batches - {w}))
         == Available(b.rows, Locked(b.batches)) + (Elements(b.batches[w].events) - b.batches[w].marked)
  {
    ReleaseFrees(b, w);
    assert BatchOk(b, b.batches[w]);
  }

  lemma CommitWorks<M>(b: Box<M>, w: WorkerId)
    requires BoxInv(b) && BoxEnabled(b, CommitBatch(w))
    ensures BoxLoad(BoxNext(b, CommitBatch(w))) < BoxLoad(b)
  {
    var t := b.batches[w];
    CommitFrees(b, w);
    MarkedFit(b, w);
    assert t.marked <= Elements(t.events) by {
      assert BatchOk(b, t);
    }
    SubsetCardinality(t.marked, Elements(t.events));
    MapSumRemove(b.batches, w, BatchWeight);
  }

  /** Every working step of an outbox lowers its load; publishing lowers it by one and queues at most one message. */
  lemma BoxWorkShrinks<M>(b: Box<M>, st: BoxStep)
    requires BoxInv(b) && BoxEnabled(b, st) && BoxWork(b, st)
    ensures BoxLoad(BoxNext(b, st)) < BoxLoad(b)
    ensures |BoxNext(b, st).queue| <= |b.queue| + 1
    ensures !st.Publish? ==> BoxNext(b, st).queue == b.queue
  {
    match st
    case Begin(w, events) => BeginWorks(b, w, events);
    case Publish(w) => PublishWorks(b, w);
    case CommitBatch(w) => CommitWorks(b, w);
    case Rollback(w) => RollbackWorks(b, w);
  }

  lemma InsertLoads<M>(b: Box<M>, e: EventId, kind: string, payload: M, now: int)
    requires BoxInv(b) && e !in b.rows
    ensures BoxLoad(InsertEvent(b, e, kind, payload, now)) == BoxLoad(b) + 3
  {
    var b' := InsertEvent(b, e, kind, payload, now);
    forall w | w in b.batches ensures e !in b.batches[w].events {
      assert BatchOk(b, b.batches[w]);
    }
    assert Available(b'.rows, Locked(b'.batches)) == Available(b.rows, Locked(b.batches)) + {e};
  }

  ghost predicate BoxBusy<M>(b: Box<M>) {
    b.batches != map[] || exists e :: e in b.rows && b.rows[e].status.Pending?
  }

  /** An outbox with an open batch or a PENDING row always has a working step. */
  lemma BoxCanWork<M>(b: Box<M>) returns (st: BoxStep)
    requires BoxInv(b) && BoxBusy(b)
    ensures BoxEnabled(b, st) && BoxWork(b, st)
  {
    if b.batches.Keys == {} {
      var events := BatchExists(b.rows, Locked(b.batches));
      var e :| e in b.rows && b.rows[e].status.Pending?;
      assert e in Available(b.rows, Locked(b.batches));
      assert |Available(b.rows, Locked(b.batches))| > 0;
      st := Begin(0, events);
    } else {
      var w :| w in b.batches;
      var t := b.batches[w];
      assert BatchOk(b, t);
      if t.poisoned {
        st := Rollback(w);
      } else if t.next < |t.events| {
        st := Publish(w);
      } else {
        st := CommitBatch(w);
      }
    }
  }

  // ----- without faults -------------------------------------------------------------------------------------

  predicate BoxFaultFree(st: BoxStep) { st.Begin? || st.Publish? || st.CommitBatch? }

  ghost predicate MarkedByWorker<M>(b: Box<M>, e: EventId) {
    exists w :: w in b.batches && e in b.batches[w].marked
  }

  /** No event is published twice, because what was published is committed or about to be. */
  ghost predicate CleanBox<M>(b: Box<M>) {
    && (forall w | w in b.batches ::
          !b.batches[w].poisoned && b.batches[w].next <= |b.batches[w].events|
            && b.batches[w].marked == Elements(b.batches[w].events[..b.batches[w].next]))
    && (forall e :: multiset(b.sent)[e] <= 1)
    && (forall e | e in b.sent && e in b.rows && b.rows[e].status.Pending? :: MarkedByWorker(b, e))
  }

  lemma NextIsUnsent<M>(b: Box<M>, w: WorkerId)
    requires BoxInv(b) && CleanBox(b) && HasNext(b, w)
    ensures b.batches[w].events[b.batches[w].next] !in b.sent
  {
    var t := b.batches[w];
    var e := t.events[t.next];
    assert BatchOk(b, t);
    assert e in Elements(t.events) && e !in Elements(t.events[..t.next]);
    forall v | v in b.batches ensures e !in b.batches[v].marked {
      assert BatchOk(b, b.batches[v]);
      if v != w { assert Elements(b.batches[v].events) !! Elements(t.events); }
    }
    assert !MarkedByWorker(b, e);
  }

  lemma CleanStepKeepsClean<M>(b: Box<M>, st: BoxStep)
    requires BoxInv(b) && CleanBox(b) && BoxEnabled(b, st) && BoxFaultFree(st)
    ensures CleanBox(BoxNext(b, st))
  {
    var b' := BoxNext(b, st);
    if st.Publish? {
      CleanPublishKeepsClean(b, st.w);
    } else {
      CleanCommitKeepsClean(b, st);
    }
  }

  lemma SentOnce(sent: seq<EventId>, e: EventId)
    requires e !in sent && forall f :: multiset(sent)[f] <= 1
    ensures forall f :: multiset(sent + [e])[f] <= 1
  {
    assert e !in multiset(sent);
  }

  lemma CleanPublishKeepsClean<M>(b: Box<M>, w: WorkerId)
    requires BoxInv(b) && CleanBox(b) && BoxEnabled(b, Publish(w))
    ensures CleanBox(BoxNext(b, Publish(w)))
  {
    var b' := BoxNext(b, Publish(w));
    var t, t' := b.batches[w], b'.batches[w];
    NextIsUnsent(b, w);
    SentOnce(b.sent, t.events[t.next]);
    assert Elements(t'.events[..t'.next]) == Elements(t.events[..t.next]) + {t.events[t.next]};
    forall e | e in b'.sent && e in b'.rows && b'.rows[e].status.Pending? ensures MarkedByWorker(b', e) {
      if e in b.sent {
        var v :| v in b.batches && e in b.batches[v].marked;
        assert v in b'.batches && e in b'.batches[v].marked;
      } else {
        assert e in b'.batches[w].marked;
      }
    }
  }

  lemma CleanCommitKeepsClean<M>(b: Box<M>, st: BoxStep)
    requires BoxInv(b) && CleanBox(b) && BoxEnabled(b, st) && (st.Begin? || st.CommitBatch?)
    ensures CleanBox(BoxNext(b, st))
  {
    var b' := BoxNext(b, st);
    forall e | e in b'.sent && e in b'.rows && b'.rows[e].status.Pending? ensures MarkedByWorker(b', e) {
      var w :| w in b.batches && e in b.batches[w].marked;
      assert w in b'.batches && e in b'.batches[w].marked;
    }
  }

  lemma CleanOtherwise<M>(b: Box<M>, b': Box<M>)
    requires BoxInv(b) && CleanBox(b) && b'.batches == b.batches && b'.sent == b.sent
    requires forall e | e in b.rows :: e in b'.rows && b'.rows[e] == b.rows[e]
    ensures CleanBox(b')
  {
    forall e | e in b'.sent && e in b'.rows && b'.rows[e].status.Pending? ensures MarkedByWorker(b', e) {
      assert MarkedByWorker(b, e);
    }
  }
}
