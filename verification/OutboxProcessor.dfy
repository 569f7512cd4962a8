/**
 * The background worker both services run: `process_pending_events` as a loop over a locked batch, proved
 * to be a run of the outbox state machine, and what complete passes of it achieve.
 */
module OutboxProcessing {
  import opened Collections
  import opened Outbox
  import opened OutboxProgress

  /** What happens to one row of the batch: the broker or the UPDATE may throw. */
  datatype Outcome = Success | PublishError | UpdateError

  class EventTable<M> {
    var rows: map<EventId, Row<M>>

    constructor (rows: map<EventId, Row<M>>)
      ensures this.rows == rows
    {
      this.rows := rows;
    }
  }

  class Broker<M> {
    var queue: seq<M>
    ghost var sent: seq<EventId>

    constructor ()
      ensures queue == [] && sent == []
    {
      queue, sent := [], [];
    }

    method Publish(e: EventId, message: M)
      modifies this
      ensures queue == old(queue) + [message] && sent == old(sent) + [e]
    {
      queue := queue + [message];
      sent := sent + [e];
    }
  }

  // ----- what a pass does --------------------------------------------------------------------------------

  predicate IsPublished<M>(rows: map<EventId, Row<M>>, route: string, e: EventId, outcome: EventId -> Outcome)
    requires e in rows
  {
    rows[e].kind == route && !outcome(e).PublishError?
  }

  /** The broker refused the row, so its UPDATE is not attempted. */
  predicate IsRefused<M>(rows: map<EventId, Row<M>>, route: string, e: EventId, outcome: EventId -> Outcome)
    requires e in rows
  {
    rows[e].kind == route && outcome(e).PublishError?
  }

  /** The events of a batch that reach the broker, in batch order. */
  function Published<M>(rows: map<EventId, Row<M>>, route: string, events: seq<EventId>, outcome: EventId -> Outcome)
    : (published: seq<EventId>)
    requires forall e | e in events :: e in rows
    ensures forall e :: e in published <==> e in events && IsPublished(rows, route, e, outcome)
  {
    if events == [] then []
    else
      var last := events[|events| - 1];
      Published(rows, route, events[..|events| - 1], outcome)
        + if IsPublished(rows, route, last, outcome) then [last] else []
  }

  function Payloads<M>(rows: map<EventId, Row<M>>, events: seq<EventId>): seq<M>
    requires forall e | e in events :: e in rows
  {
    seq(|events|, i requires 0 <= i < |events| => rows[events[i]].payload)
  }

  /** A failed UPDATE leaves a transaction that cannot commit. */
  ghost predicate Poisons<M>(
    rows: map<EventId, Row<M>>, route: string, events: seq<EventId>, outcome: EventId -> Outcome)
  {
    exists e :: e in events && e in rows && !IsRefused(rows, route, e, outcome) && outcome(e).UpdateError?
  }

  ghost function Updated<M>(
    rows: map<EventId, Row<M>>, route: string, events: seq<EventId>, outcome: EventId -> Outcome): set<EventId>
  {
    set e | e in events && e in rows && !IsRefused(rows, route, e, outcome)
  }

  /** How often an event of a batch is published. */
  function Share<M>(
    rows: map<EventId, Row<M>>, route: string, events: seq<EventId>, outcome: EventId -> Outcome, e: EventId): nat
    requires forall f | f in events :: f in rows
  {
    if e in events && IsPublished(rows, route, e, outcome) then 1 else 0
  }

  lemma {:induction false} PublishedOnce<M>(
    rows: map<EventId, Row<M>>, route: string, events: seq<EventId>, outcome: EventId -> Outcome, e: EventId)
    requires Distinct(events) && forall f | f in events :: f in rows
    ensures multiset(Published(rows, route, events, outcome))[e] == Share(rows, route, events, outcome, e)
  {
    if events != [] {
      var front, last := events[..|events| - 1], events[|events| - 1];
      PublishedOnce(rows, route, front, outcome, e);
      assert e in events <==> e in front || e == last;
      assert last !in front;
    }
  }

  // ----- runs of the box -----------------------------------------------------------------------------------

  ghost predicate IsBoxRun<M>(b: Box<M>, steps: seq<BoxStep>)
    decreases |steps|, 0
  {
    steps == [] ||
    (IsBoxRun(b, steps[..|steps| - 1]) && !steps[|steps| - 1].Lose?
      && BoxEnabled(BoxExec(b, steps[..|steps| - 1]), steps[|steps| - 1]))
  }

  ghost function BoxExec<M>(b: Box<M>, steps: seq<BoxStep>): Box<M>
    requires IsBoxRun(b, steps)
    decreases |steps|, 1
  {
    if steps == [] then b else BoxNext(BoxExec(b, steps[..|steps| - 1]), steps[|steps| - 1])
  }

  lemma ExtendBoxRun<M>(b: Box<M>, steps: seq<BoxStep>, st: BoxStep)
    requires IsBoxRun(b, steps) && !st.Lose? && BoxEnabled(BoxExec(b, steps), st)
    ensures IsBoxRun(b, steps + [st]) && BoxExec(b, steps + [st]) == BoxNext(BoxExec(b, steps), st)
  {
    assert (steps + [st])[..|steps + [st]| - 1] == steps;
  }

  // ----- one row of a pass -----------------------------------------------------------------------------------

  ghost function RowStep<M>(b: Box<M>, w: WorkerId, outcome: EventId -> Outcome): BoxStep
    requires HasNext(b, w)
  {
    var e := b.batches[w].events[b.batches[w].next];
    if IsRefused(b.rows, b.route, e, outcome) then PublishFails(w)
    else if b.batches[w].poisoned || outcome(e).UpdateError? then UpdateFails(w)
    else Outbox.Publish(w)
  }

  /** The batch after its next row. */
  function AfterRow<M>(rows: map<EventId, Row<M>>, route: string, t: Batch, outcome: EventId -> Outcome): Batch
    requires t.next < |t.events| && t.events[t.next] in rows
  {
    var e := t.events[t.next];
    if IsRefused(rows, route, e, outcome) then t.(next := t.next + 1)
    else if t.poisoned || outcome(e).UpdateError? then t.(next := t.next + 1, poisoned := true)
    else t.(next := t.next + 1, marked := t.marked + {e})
  }

  /** The box after the worker has dealt with its next row. */
  function RowDone<M>(b: Box<M>, w: WorkerId, outcome: EventId -> Outcome): Box<M>
    requires w in b.batches && b.batches[w].next < |b.batches[w].events|
      && b.batches[w].events[b.batches[w].next] in b.rows
  {
    var t := b.batches[w];
    var e := t.events[t.next];
    (if IsPublished(b.rows, b.route, e, outcome) then Emit(b, e) else b)
      .(batches := b.batches[w := AfterRow(b.rows, b.route, t, outcome)])
  }

  lemma RowStepRuns<M>(b: Box<M>, w: WorkerId, outcome: EventId -> Outcome)
    requires HasNext(b, w)
    ensures
      var st := RowStep(b, w, outcome);
      BoxEnabled(b, st) && !st.Lose? && BoxNext(b, st) == RowDone(b, w, outcome)
  {
  }

  lemma RowRuns<M>(start: Box<M>, steps: seq<BoxStep>, b: Box<M>, w: WorkerId, outcome: EventId -> Outcome)
    returns (longer: seq<BoxStep>)
    requires IsBoxRun(start, steps) && BoxExec(start, steps) == b && HasNext(b, w)
    ensures IsBoxRun(start, longer) && BoxExec(start, longer) == RowDone(b, w, outcome)
  {
    RowStepRuns(b, w, outcome);
    ExtendBoxRun(start, steps, RowStep(b, w, outcome));
    longer := steps + [RowStep(b, w, outcome)];
  }

  /** The first `t.next` rows of the batch have been dealt with, and these events were published for them. */
  ghost predicate Progressed<M>(
    rows: map<EventId, Row<M>>, route: string, t: Batch, outcome: EventId -> Outcome, published: seq<EventId>)
  {
    && t.next <= |t.events| && (forall e | e in t.events :: e in rows)
    && (t.poisoned <==> Poisons(rows, route, t.events[..t.next], outcome))
    && (!t.poisoned ==> t.marked == Updated(rows, route, t.events[..t.next], outcome))
    && published == Published(rows, route, t.events[..t.next], outcome)
  }

  lemma PoisonsExtend<M>(
    rows: map<EventId, Row<M>>, route: string, done: seq<EventId>, e: EventId, outcome: EventId -> Outcome)
    requires e in rows
    ensures Poisons(rows, route, done + [e], outcome)
       <==> Poisons(rows, route, done, outcome) || (!IsRefused(rows, route, e, outcome) && outcome(e).UpdateError?)
  {
    assert e in done + [e];
    assert forall f | f in done :: f in done + [e];
  }

  lemma UpdatedExtend<M>(
    rows: map<EventId, Row<M>>, route: string, done: seq<EventId>, e: EventId, outcome: EventId -> Outcome)
    requires e in rows
    ensures Updated(rows, route, done + [e], outcome)
         == Updated(rows, route, done, outcome) + if IsRefused(rows, route, e, outcome) then {} else {e}
  {
  }

  lemma PublishedExtend<M>(
    rows: map<EventId, Row<M>>, route: string, done: seq<EventId>, e: EventId, outcome: EventId -> Outcome)
    requires forall f | f in done + [e] :: f in rows
    requires forall f | f in done :: f in rows
    ensures Published(rows, route, done + [e], outcome)
         == Published(rows, route, done, outcome) + if IsPublished(rows, route, e, outcome) then [e] else []
  {
    assert (done + [e])[..|done + [e]| - 1] == done;
  }

  lemma RowProgresses<M>(
    rows: map<EventId, Row<M>>, route: string, t: Batch, outcome: EventId -> Outcome, published: seq<EventId>)
    requires t.next < |t.events| && Progressed(rows, route, t, outcome, published)
    ensures
      var e := t.events[t.next];
      Progressed(rows, route, AfterRow(rows, route, t, outcome), outcome,
                 published + if IsPublished(rows, route, e, outcome) then [e] else [])
  {
    var e, done := t.events[t.next], t.events[..t.next];
    assert t.events[..t.next + 1] == done + [e];
    PoisonsExtend(rows, route, done, e, outcome);
    UpdatedExtend(rows, route, done, e, outcome);
    PublishedExtend(rows, route, done, e, outcome);
  }

  // ----- a whole pass ------------------------------------------------------------------------------------------

  ghost predicate PassCommits<M>(b: Box<M>, events: seq<EventId>, outcome: EventId -> Outcome, commits: bool) {
    commits && !Poisons(b.rows, b.route, events, outcome)
  }

  ghost function Pass<M>(b: Box<M>, events: seq<EventId>, outcome: EventId -> Outcome, commits: bool): Box<M>
    requires forall e | e in events :: e in b.rows
  {
    var published := Published(b.rows, b.route, events, outcome);
    b.(rows := if PassCommits(b, events, outcome, commits) then Mark(b.rows, Updated(b.rows, b.route, events, outcome))
               else b.rows,
       queue := b.queue + Payloads(b.rows, published),
       sent := b.sent + published)
  }

  /** The box in the middle of a pass. */
  function Midway<M>(b: Box<M>, w: WorkerId, t: Batch, published: seq<EventId>): Box<M>
    requires forall e | e in published :: e in b.rows
  {
    b.(batches := b.batches[w := t], queue := b.queue + Payloads(b.rows, published), sent := b.sent + published)
  }

  lemma RowMoves<M>(b: Box<M>, w: WorkerId, t: Batch, outcome: EventId -> Outcome, published: seq<EventId>)
    requires t.next < |t.events| && Progressed(b.rows, b.route, t, outcome, published)
    ensures
      var e := t.events[t.next];
      RowDone(Midway(b, w, t, published), w, outcome)
        == Midway(b, w, AfterRow(b.rows, b.route, t, outcome),
                  published + if IsPublished(b.rows, b.route, e, outcome) then [e] else [])
  {
    var e := t.events[t.next];
    Overwritten(b.batches, w, t, AfterRow(b.rows, b.route, t, outcome));
    if IsPublished(b.rows, b.route, e, outcome) {
      assert Payloads(b.rows, published + [e]) == Payloads(b.rows, published) + [b.rows[e].payload];
      assert b.queue + Payloads(b.rows, published) + [b.rows[e].payload]
          == b.queue + (Payloads(b.rows, published) + [b.rows[e].payload]);
      assert b.sent + published + [e] == b.sent + (published + [e]);
    } else {
      assert published + [] == published;
    }
  }

  lemma BatchBegins<M>(b: Box<M>, w: WorkerId, events: seq<EventId>, outcome: EventId -> Outcome)
    returns (steps: seq<BoxStep>)
    requires w !in b.batches && IsBatch(b.rows, Locked(b.batches), events)
    ensures
      var t := Batch(events, 0, {}, false);
      Progressed(b.rows, b.route, t, outcome, []) && IsBoxRun(b, steps) && BoxExec(b, steps) == Midway(b, w, t, [])
  {
    ExtendBoxRun(b, [], Begin(w, events));
    steps := [] + [Begin(w, events)];
  }

  lemma {:induction false} RowsRun<M>(b: Box<M>, w: WorkerId, events: seq<EventId>, outcome: EventId -> Outcome, k: nat)
    returns (steps: seq<BoxStep>, t: Batch, published: seq<EventId>)
    requires w !in b.batches && IsBatch(b.rows, Locked(b.batches), events) && k <= |events|
    ensures t.events == events && t.next == k && Progressed(b.rows, b.route, t, outcome, published)
    ensures IsBoxRun(b, steps) && BoxExec(b, steps) == Midway(b, w, t, published)
  {
    if k == 0 {
      steps := BatchBegins(b, w, events, outcome);
      t, published := Batch(events, 0, {}, false), [];
    } else {
      var s, u, p := RowsRun(b, w, events, outcome, k - 1);
      RowProgresses(b.rows, b.route, u, outcome, p);
      RowMoves(b, w, u, outcome, p);
      steps := RowRuns(b, s, Midway(b, w, u, p), w, outcome);
      t := AfterRow(b.rows, b.route, u, outcome);
      published := p + if IsPublished(b.rows, b.route, events[k - 1], outcome) then [events[k - 1]] else [];
    }
  }

  /** A pass of the worker, with whatever failed in it, is a run of the outbox state machine. */
  lemma PassIsRun<M>(b: Box<M>, w: WorkerId, events: seq<EventId>, outcome: EventId -> Outcome, commits: bool)
    returns (steps: seq<BoxStep>)
    requires w !in b.batches && IsBatch(b.rows, Locked(b.batches), events)
    ensures IsBoxRun(b, steps) && BoxExec(b, steps) == Pass(b, events, outcome, commits)
  {
    var s, t, published := RowsRun(b, w, events, outcome, |events|);
    assert events[..|events|] == events;
    var last := if PassCommits(b, events, outcome, commits) then CommitBatch(w) else Rollback(w);
    ExtendBoxRun(b, s, last);
    steps := s + [last];
    Overwritten(b.batches, w, t, t);
  }

  lemma PassFinishes<M>(b: Box<M>, t: Batch, outcome: EventId -> Outcome, published: seq<EventId>, commits: bool)
    requires Progressed(b.rows, b.route, t, outcome, published) && t.next == |t.events|
    ensures PassCommits(b, t.events, outcome, commits) <==> commits && !t.poisoned
    ensures Pass(b, t.events, outcome, commits)
         == b.(rows := if commits && !t.poisoned then Mark(b.rows, t.marked) else b.rows,
               queue := b.queue + Payloads(b.rows, published), sent := b.sent + published)
  {
    assert t.events[..t.next] == t.events;
  }

  /** What a pass does, row by row: it commits unless the commit or an attempted UPDATE fails; it then marks the
      batch but for the rows the broker refused; and it publishes the routed rows not refused, once each. */
  lemma PassExactly<M>(b: Box<M>, events: seq<EventId>, outcome: EventId -> Outcome, commits: bool)
    requires Distinct(events) && forall e | e in events :: e in b.rows
    ensures PassCommits(b, events, outcome, commits) <==>
      commits && forall e | e in events ::
        !outcome(e).UpdateError? || (b.rows[e].kind == b.route && outcome(e).PublishError?)
    ensures Pass(b, events, outcome, commits).rows.Keys == b.rows.Keys
    ensures forall e | e in b.rows ::
      var refused := b.rows[e].kind == b.route && outcome(e).PublishError?;
      Pass(b, events, outcome, commits).rows[e]
        == if PassCommits(b, events, outcome, commits) && e in events && !refused
           then b.rows[e].(status := Processed) else b.rows[e]
    ensures forall e ::
      multiset(Pass(b, events, outcome, commits).sent)[e]
        == multiset(b.sent)[e]
           + if e in events && b.rows[e].kind == b.route && !outcome(e).PublishError? then 1 else 0
  {
    var published := Published(b.rows, b.route, events, outcome);
    forall e
      ensures multiset(b.sent + published)[e] == multiset(b.sent)[e] + Share(b.rows, b.route, events, outcome, e)
    {
      PublishedOnce(b.rows, b.route, events, outcome, e);
    }
  }

  lemma PayloadsExtend<M>(rows: map<EventId, Row<M>>, published: seq<EventId>, e: EventId)
    requires (forall f | f in published :: f in rows) && e in rows
    ensures Payloads(rows, published + [e]) == Payloads(rows, published) + [rows[e].payload]
  {
  }

  // ----- the worker --------------------------------------------------------------------------------------------

  class OutboxProcessor<M> {
    const table: EventTable<M>
    const broker: Broker<M>
    const route: string

    constructor (table: EventTable<M>, broker: Broker<M>, route: string)
      ensures this.table == table && this.broker == broker && this.route == route
    {
      this.table, this.broker, this.route := table, broker, route;
    }

    /** The service's outbox as the state machine sees it, with the open batches of other workers. */
    ghost function AsBox(others: map<WorkerId, Batch>): Box<M>
      reads table, broker
    {
      Box(route, table.rows, others, broker.queue, broker.sent)
    }

    /** The try block of the loop: publish the row if it is routed, then mark it in the open transaction. */
    method ProcessEvent(rows: map<EventId, Row<M>>, t: Batch, outcome: EventId -> Outcome) returns (after: Batch)
      requires t.next < |t.events| && t.events[t.next] in rows
      modifies broker
      ensures after == AfterRow(rows, route, t, outcome)
      ensures IsPublished(rows, route, t.events[t.next], outcome) ==>
        broker.queue == old(broker.queue) + [rows[t.events[t.next]].payload]
          && broker.sent == old(broker.sent) + [t.events[t.next]]
      ensures !IsPublished(rows, route, t.events[t.next], outcome) ==>
        broker.queue == old(broker.queue) && broker.sent == old(broker.sent)
    {
      var e := t.events[t.next];
      after := t.(next := t.next + 1);
      if rows[e].kind == route {
        if outcome(e).PublishError? {
          return;
        }
        broker.Publish(e, rows[e].payload);
      }
      if t.poisoned || outcome(e).UpdateError? {
        after := after.(poisoned := true);
      } else {
        after := after.(marked := t.marked + {e});
      }
    }

    /** The loop over the batch. */
    method ProcessBatch(rows: map<EventId, Row<M>>, events: seq<EventId>, outcome: EventId -> Outcome)
      returns (t: Batch, ghost published: seq<EventId>)
      requires forall e | e in events :: e in rows
      modifies broker
      ensures t.events == events && t.next == |events| && Progressed(rows, route, t, outcome, published)
      ensures broker.sent == old(broker.sent) + published
      ensures broker.queue == old(broker.queue) + Payloads(rows, published)
    {
      t := Batch(events, 0, {}, false);
      published := [];
      while t.next < |events|
        invariant t.events == events && Progressed(rows, route, t, outcome, published)
        invariant broker.sent == old(broker.sent) + published
        invariant broker.queue == old(broker.queue) + Payloads(rows, published)
      {
        RowProgresses(rows, route, t, outcome, published);
        PayloadsExtend(rows, published, events[t.next]);
        published := published + if IsPublished(rows, route, events[t.next], outcome) then [events[t.next]] else [];
        t := ProcessEvent(rows, t, outcome);
      }
    }

    /**
     * `events` is what the locking SELECT returned; `outcome` and `commits` are what the broker and the
     * database did. Returns whether the transaction committed.
     */
    method ProcessPendingEvents(
      events: seq<EventId>, outcome: EventId -> Outcome, commits: bool, ghost others: map<WorkerId, Batch>)
      returns (committed: bool)
      requires IsBatch(table.rows, Locked(others), events)
      modifies table, broker
      ensures AsBox(others) == Pass(old(AsBox(others)), events, outcome, commits)
      ensures committed <==> commits && forall e | e in events ::
                !outcome(e).UpdateError? || (old(table.rows)[e].kind == route && outcome(e).PublishError?)
      ensures table.rows.Keys == old(table.rows).Keys
      ensures forall e | e in table.rows ::
                var refused := old(table.rows)[e].kind == route && outcome(e).PublishError?;
                table.rows[e] == if committed && e in events && !refused then old(table.rows)[e].(status := Processed)
                                 else old(table.rows)[e]
      ensures forall e ::
                multiset(broker.sent)[e] == multiset(old(broker.sent))[e]
                  + if e in events && old(table.rows)[e].kind == route && !outcome(e).PublishError? then 1 else 0
    {
      var rows := table.rows;
      var t, published := ProcessBatch(rows, events, outcome);
      PassFinishes(old(AsBox(others)), t, outcome, published, commits);
      PassExactly(old(AsBox(others)), events, outcome, commits);
      committed := commits && !t.poisoned;
      if committed {
        table.rows := Mark(rows, t.marked);
      }
    }
  }

  // ----- what passes achieve -------------------------------------------------------------------------------------

  ghost predicate OldestFirst<M>(rows: map<EventId, Row<M>>, events: seq<EventId>) {
    && (forall e | e in events :: e in rows)
    && (forall i, j | 0 <= i < j < |events| :: rows[events[i]].createdAt <= rows[events[j]].createdAt)
  }

  lemma OldestFirstAppend<M>(rows: map<EventId, Row<M>>, events: seq<EventId>, last: EventId)
    requires OldestFirst(rows, events) && last in rows
    requires forall e | e in events :: rows[e].createdAt <= rows[last].createdAt
    ensures OldestFirst(rows, events + [last])
  {
  }

  /** A pass publishes in nondecreasing created_at order, whatever the broker refuses. */
  lemma PublishesOldestFirst<M>(b: Box<M>, events: seq<EventId>, outcome: EventId -> Outcome)
    requires IsBatch(b.rows, Locked(b.batches), events)
    ensures
      var published := Published(b.rows, b.route, events, outcome);
      forall i, j | 0 <= i < j < |published| :: b.rows[published[i]].createdAt <= b.rows[published[j]].createdAt
  {
    FilteredOldestFirst(b.rows, b.route, events, outcome);
  }

  lemma {:induction false} FilteredOldestFirst<M>(
    rows: map<EventId, Row<M>>, route: string, events: seq<EventId>, outcome: EventId -> Outcome)
    requires OldestFirst(rows, events)
    ensures OldestFirst(rows, Published(rows, route, events, outcome))
  {
    if events != [] {
      var front, last := events[..|events| - 1], events[|events| - 1];
      FilteredOldestFirst(rows, route, front, outcome);
      forall e | e in front ensures rows[e].createdAt <= rows[last].createdAt {
        var i :| 0 <= i < |front| && front[i] == e;
        assert events[i] == e;
      }
      OldestFirstAppend(rows, Published(rows, route, front, outcome), last);
      assert Published(rows, route, front, outcome) + [] == Published(rows, route, front, outcome);
    }
  }

  /** After a committed pass a row of the batch is PENDING exactly if the broker refused it. */
  lemma RefusedStayPending<M>(b: Box<M>, events: seq<EventId>, outcome: EventId -> Outcome, e: EventId)
    requires IsBatch(b.rows, Locked(b.batches), events) && PassCommits(b, events, outcome, true) && e in b.rows
    ensures
      var after := Pass(b, events, outcome, true).rows[e];
      after == if e in events && !IsRefused(b.rows, b.route, e, outcome) then b.rows[e].(status := Processed)
               else b.rows[e]
  {
  }

  /** Consecutive passes of one worker in which nothing failed. */
  ghost predicate CleanPasses<M>(rows: map<EventId, Row<M>>, batches: seq<seq<EventId>>)
    decreases |batches|
  {
    batches == [] ||
    (IsBatch(rows, {}, batches[0]) && CleanPasses(Mark(rows, Elements(batches[0])), batches[1..]))
  }

  ghost function AfterPasses<M>(rows: map<EventId, Row<M>>, batches: seq<seq<EventId>>): map<EventId, Row<M>>
    decreases |batches|
  {
    if batches == [] then rows else AfterPasses(Mark(rows, Elements(batches[0])), batches[1..])
  }

  /** Each clean pass takes ten PENDING rows, or all that are left: n rows are gone after exactly ceil(n/10) passes. */
  lemma {:induction false} PassesDrain<M>(rows: map<EventId, Row<M>>, batches: seq<seq<EventId>>)
    requires CleanPasses(rows, batches)
    ensures
      var n, left := |Available(rows, {})|, |Available(AfterPasses(rows, batches), {})|;
      left == (if 10 * |batches| <= n then n - 10 * |batches| else 0)
        && (left == 0 <==> |batches| >= (n + 9) / 10)
    decreases |batches|
  {
    if batches != [] {
      var marked := Mark(rows, Elements(batches[0]));
      PassesDrain(marked, batches[1..]);
      BatchTakes(rows, {}, batches[0]);
      assert Available(marked, {}) == Available(rows, {}) - Elements(batches[0]);
    }
  }

  /** A clean pass is what the worker does when no call fails. */
  lemma CleanPassMarksBatch<M>(b: Box<M>, events: seq<EventId>)
    requires IsBatch(b.rows, Locked(b.batches), events)
    ensures Pass(b, events, e => Success, true).rows == Mark(b.rows, Elements(events))
  {
    assert Updated(b.rows, b.route, events, e => Success) == Elements(events);
  }
}
