/**
 * A transactional outbox and the queue it feeds, as a state machine.
 *
 * One `Box` is the `outbox_events` table of a service, the transactions its background workers hold
 * open, and the broker queue the workers publish to. The `sent` field is a history variable: the
 * identifier of every event whose payload was ever handed to the broker, oldest first.
 */
module Outbox {
  import opened Collections

  type EventId = string
  type WorkerId = nat

  const BATCH_LIMIT: nat := 10

  datatype EventStatus = Pending | Processed

  datatype Row<M> = Row(kind: string, payload: M, status: EventStatus, createdAt: int)

  /** An open worker transaction: `events[..next]` have been visited, `marked` updated but not committed.
      `poisoned` says that a statement failed, after which the database refuses to commit. */
  datatype Batch = Batch(events: seq<EventId>, next: nat, marked: set<EventId>, poisoned: bool)

  datatype Box<M> = Box(
    route: string,
    rows: map<EventId, Row<M>>,
    batches: map<WorkerId, Batch>,
    queue: seq<M>,
    sent: seq<EventId>)

  // ----- selecting a batch ---------------------------------------------------------------------

  ghost function Available<M>(rows: map<EventId, Row<M>>, locked: set<EventId>): set<EventId> {
    set e | e in rows && rows[e].status.Pending? && e !in locked
  }

  ghost function Locked(batches: map<WorkerId, Batch>): set<EventId> {
    set w, e | w in batches && e in batches[w].events :: e
  }

  /** What `WHERE status = 'PENDING' ORDER BY created_at ASC FOR UPDATE SKIP LOCKED LIMIT 10` may return. */
  ghost predicate IsBatch<M>(rows: map<EventId, Row<M>>, locked: set<EventId>, events: seq<EventId>) {
    && Distinct(events)
    && (forall i | 0 <= i < |events| :: events[i] in Available(rows, locked))
    && (forall i, j | 0 <= i < j < |events| :: rows[events[i]].createdAt <= rows[events[j]].createdAt)
    && |events| == Min(BATCH_LIMIT, |Available(rows, locked)|)
    && (forall e, f | e in events && f in Available(rows, locked) && f !in events ::
          rows[e].createdAt <= rows[f].createdAt)
  }

  /** What a batch is made of: PENDING rows nobody else holds; and a row is passed over only for ten rows that
      are at least as old. */
  lemma OlderRowsGoFirst<M>(rows: map<EventId, Row<M>>, locked: set<EventId>, events: seq<EventId>, f: EventId)
    requires IsBatch(rows, locked, events) && f in rows
    ensures f in events ==> rows[f].status.Pending? && f !in locked
    ensures f !in events && rows[f].status.Pending? && f !in locked ==>
      |events| == 10 && |Elements(events)| == 10 && forall e | e in events :: rows[e].createdAt <= rows[f].createdAt
  {
    var available := Available(rows, locked);
    DistinctCardinality(events);
    if f !in events && f in available {
      assert Elements(events) <= available - {f};
      SubsetIsSmaller(Elements(events), available - {f});
    }
  }

  lemma SubsetIsSmaller<T>(a: set<T>, b: set<T>)
    requires a <= b
    ensures |a| <= |b|
  {
    assert b == a + (b - a);
  }

  /** A batch exists in every state, so a worker that polls is never stuck on the query. */
  lemma BatchExists<M>(rows: map<EventId, Row<M>>, locked: set<EventId>) returns (events: seq<EventId>)
    ensures IsBatch(rows, locked, events)
  {
    events := OldestOf(rows, Available(rows, locked), BATCH_LIMIT);
  }

  lemma {:induction false} OldestOf<M>(rows: map<EventId, Row<M>>, from: set<EventId>, n: nat)
    returns (events: seq<EventId>)
    requires from <= rows.Keys
    ensures Distinct(events) && (forall e | e in events :: e in from)
    ensures |events| == Min(n, |from|)
    ensures forall i, j | 0 <= i < j < |events| :: rows[events[i]].createdAt <= rows[events[j]].createdAt
    ensures forall e, f | e in events && f in from && f !in events :: rows[e].createdAt <= rows[f].createdAt
  {
    if n == 0 || from == {} {
      events := [];
    } else {
      var first := Oldest(rows, from);
      var rest := OldestOf(rows, from - {first}, n - 1);
      events := [first] + rest;
    }
  }

  lemma {:induction false} Oldest<M>(rows: map<EventId, Row<M>>, from: set<EventId>) returns (first: EventId)
    requires from != {} && from <= rows.Keys
    ensures first in from
    ensures forall e | e in from :: rows[first].createdAt <= rows[e].createdAt
  {
    first :| first in from;
    if from != {first} {
      var other := Oldest(rows, from - {first});
      if rows[other].createdAt < rows[first].createdAt {
        first := other;
      }
    }
  }

  // ----- steps ---------------------------------------------------------------------------------

  datatype BoxStep =
    | Begin(w: WorkerId, events: seq<EventId>)
    | Publish(w: WorkerId)       // the row is published if it is routed, then marked
    | PublishFails(w: WorkerId)  // the broker refuses it: logged, row left as it was
    | UpdateFails(w: WorkerId)   // published, but the UPDATE throws: logged, transaction unusable
    | CommitBatch(w: WorkerId)
    | Rollback(w: WorkerId)      // crash, failed commit or exception before the commit
    | Lose(i: nat)               // a message already handed to a no-ack consumer disappears

  ghost predicate HasNext<M>(b: Box<M>, w: WorkerId) {
    w in b.batches && b.batches[w].next < |b.batches[w].events|
      && b.batches[w].events[b.batches[w].next] in b.rows
  }

  ghost predicate BoxEnabled<M>(b: Box<M>, st: BoxStep) {
    match st
    case Begin(w, events) => w !in b.batches && IsBatch(b.rows, Locked(b.batches), events)
    case Publish(w) => HasNext(b, w) && !b.batches[w].poisoned
    case PublishFails(w) => HasNext(b, w)
    case UpdateFails(w) => HasNext(b, w)
    case CommitBatch(w) =>
      w in b.batches && b.batches[w].next == |b.batches[w].events| && !b.batches[w].poisoned
    case Rollback(w) => w in b.batches
    case Lose(i) => i < |b.queue|
  }

  /** Hands the payload of a routed event to the broker; events of other kinds are not published. */
  function Emit<M>(b: Box<M>, e: EventId): Box<M>
    requires e in b.rows
  {
    if b.rows[e].kind == b.route then b.(queue := b.queue + [b.rows[e].payload], sent := b.sent + [e])
    else b
  }

  function Mark<M>(rows: map<EventId, Row<M>>, marked: set<EventId>): map<EventId, Row<M>> {
    map e | e in rows :: if e in marked then rows[e].(status := Processed) else rows[e]
  }

  ghost function BoxNext<M>(b: Box<M>, st: BoxStep): Box<M>
    requires BoxEnabled(b, st)
  {
    match st
    case Begin(w, events) => b.(batches := b.batches[w := Batch(events, 0, {}, false)])
    case Publish(w) =>
      var t := b.batches[w];
      var e := t.events[t.next];
      Emit(b, e).(batches := b.batches[w := t.(next := t.next + 1, marked := t.marked + {e})])
    case PublishFails(w) =>
      var t := b.batches[w];
      b.(batches := b.batches[w := t.(next := t.next + 1)])
    case UpdateFails(w) =>
      var t := b.batches[w];
      Emit(b, t.events[t.next]).(batches := b.batches[w := t.(next := t.next + 1, poisoned := true)])
    case CommitBatch(w) =>
      b.(rows := Mark(b.rows, b.batches[w].marked), batches := b.batches - {w})
    case Rollback(w) => b.(batches := b.batches - {w})
    case Lose(i) => b.(queue := b.queue[..i] + b.queue[i + 1..])
  }

  /** A service transaction inserts an event. */
  function InsertEvent<M>(b: Box<M>, e: EventId, kind: string, payload: M, now: int): Box<M> {
    b.(rows := b.rows[e := Row(kind, payload, Pending, now)])
  }

  /** A consumer is handed the oldest message. */
  function TakeMessage<M>(b: Box<M>): Box<M>
    requires b.queue != []
  {
    b.(queue := b.queue[1..])
  }

  // ----- what every step keeps -----------------------------------------------------------------

  ghost predicate BatchOk<M>(b: Box<M>, t: Batch) {
    && t.next <= |t.events|
    && Distinct(t.events)
    && (forall e | e in t.events :: e in b.rows && b.rows[e].status.Pending?)
    && t.marked <= Elements(t.events[..t.next])
    && (forall e | e in t.marked && b.rows[e].kind == b.route :: e in b.sent)
  }

  /** Some published event carries this message. */
  ghost predicate Traced<M>(b: Box<M>, m: M) {
    exists e :: e in b.sent && e in b.rows && b.rows[e].kind == b.route && b.rows[e].payload == m
  }

  ghost predicate BoxInv<M>(b: Box<M>) {
    && (forall w | w in b.batches :: BatchOk(b, b.batches[w]))
    && (forall v, w | v in b.batches && w in b.batches && v != w ::
          Elements(b.batches[v].events) !! Elements(b.batches[w].events))
    && (forall e | e in b.rows && b.rows[e].status.Processed? && b.rows[e].kind == b.route :: e in b.sent)
    && (forall e | e in b.sent :: e in b.rows && b.rows[e].kind == b.route)
    && (forall m | m in b.queue :: Traced(b, m))
  }

  /** A later box has every row of the earlier one, unchanged but for the status, and has published at least as much. */
  ghost predicate Extends<M>(old_: Box<M>, new_: Box<M>) {
    && old_.route == new_.route
    && old_.sent <= new_.sent
    && (forall e | e in old_.rows :: e in new_.rows && new_.rows[e].kind == old_.rows[e].kind
          && new_.rows[e].payload == old_.rows[e].payload && new_.rows[e].createdAt == old_.rows[e].createdAt)
  }

  lemma TracedExtends<M>(a: Box<M>, b: Box<M>, m: M)
    requires Extends(a, b) && Traced(a, m)
    ensures Traced(b, m)
  {
    var e :| e in a.sent && e in a.rows && a.rows[e].kind == a.route && a.rows[e].payload == m;
    assert e in b.sent && b.rows[e].payload == m;
  }

  lemma StepExtends<M>(b: Box<M>, st: BoxStep)
    requires BoxEnabled(b, st)
    ensures Extends(b, BoxNext(b, st))
    ensures !st.CommitBatch? ==> BoxNext(b, st).rows == b.rows
    ensures BoxNext(b, st).rows.Keys == b.rows.Keys
  {
  }

  lemma QueueTraced<M>(b: Box<M>, st: BoxStep, m: M)
    requires BoxInv(b) && BoxEnabled(b, st)
    requires m in BoxNext(b, st).queue
    ensures Traced(BoxNext(b, st), m)
  {
    var b' := BoxNext(b, st);
    StepExtends(b, st);
    if m in b.queue {
      TracedExtends(b, b', m);
    } else {
      var e := b.batches[st.w].events[b.batches[st.w].next];
      assert b'.sent == b.sent + [e] && b'.rows[e].payload == m;
    }
  }

  lemma BatchesStayOk<M>(b: Box<M>, st: BoxStep, w: WorkerId)
    requires BoxInv(b) && BoxEnabled(b, st)
    requires w in BoxNext(b, st).batches
    ensures BatchOk(BoxNext(b, st), BoxNext(b, st).batches[w])
  {
    StepExtends(b, st);
    if st.CommitBatch? {
      OthersOutliveCommit(b, st.w, w);
    } else if st.Publish? || st.PublishFails? || st.UpdateFails? {
      if st.w == w {
        OwnBatchStaysOk(b, st);
      } else {
        assert BatchOk(b, b.batches[w]);
      }
    } else if w in b.batches {
      assert BatchOk(b, b.batches[w]);
    }
  }

  /** A batch whose next row was dealt with. */
  lemma OwnBatchStaysOk<M>(b: Box<M>, st: BoxStep)
    requires BoxInv(b) && BoxEnabled(b, st) && (st.Publish? || st.PublishFails? || st.UpdateFails?)
    ensures BatchOk(BoxNext(b, st), BoxNext(b, st).batches[st.w])
  {
    var t, t' := b.batches[st.w], BoxNext(b, st).batches[st.w];
    StepExtends(b, st);
    assert BatchOk(b, t);
    assert Elements(t'.events[..t'.next]) == Elements(t.events[..t.next]) + {t.events[t.next]};
  }

  /** The rows a commit marks are in no other batch. */
  lemma OthersOutliveCommit<M>(b: Box<M>, v: WorkerId, w: WorkerId)
    requires BoxInv(b) && BoxEnabled(b, CommitBatch(v)) && w in b.batches && w != v
    ensures BatchOk(BoxNext(b, CommitBatch(v)), b.batches[w])
  {
    var t := b.batches[w];
    assert BatchOk(b, b.batches[v]) && BatchOk(b, t);
    assert Elements(b.batches[v].events) !! Elements(t.events);
    forall e | e in t.events ensures e !in b.batches[v].marked {
      assert e in Elements(t.events);
    }
  }

  lemma BatchesStayDisjoint<M>(b: Box<M>, st: BoxStep, v: WorkerId, w: WorkerId)
    requires BoxInv(b) && BoxEnabled(b, st)
    requires v in BoxNext(b, st).batches && w in BoxNext(b, st).batches && v != w
    ensures Elements(BoxNext(b, st).batches[v].events) !! Elements(BoxNext(b, st).batches[w].events)
  {
    if st.Begin? {
      forall u, e | u in b.batches && e in b.batches[u].events ensures e !in st.events {
        assert e in Locked(b.batches);
      }
    }
  }

  /** Safety of one outbox: every step, faulty or not, keeps the invariant. */
  lemma BoxStepKeepsInv<M>(b: Box<M>, st: BoxStep)
    requires BoxInv(b) && BoxEnabled(b, st)
    ensures BoxInv(BoxNext(b, st))
  {
    var b' := BoxNext(b, st);
    StepExtends(b, st);
    forall w | w in b'.batches ensures BatchOk(b', b'.batches[w]) {
      BatchesStayOk(b, st, w);
    }
    forall v, w | v in b'.batches && w in b'.batches && v != w
      ensures Elements(b'.batches[v].events) !! Elements(b'.batches[w].events)
    {
      BatchesStayDisjoint(b, st, v, w);
    }
    forall m | m in b'.queue ensures Traced(b', m) {
      QueueTraced(b, st, m);
    }
    forall e | e in b'.rows && b'.rows[e].status.Processed? && b'.rows[e].kind == b'.route ensures e in b'.sent {
      if b.rows[e].status.Pending? {
        assert BatchOk(b, b.batches[st.w]) && e in b.batches[st.w].marked;
      }
    }
  }

  lemma InsertKeepsInv<M>(b: Box<M>, e: EventId, kind: string, payload: M, now: int)
    requires BoxInv(b) && e !in b.rows
    ensures BoxInv(InsertEvent(b, e, kind, payload, now))
    ensures Extends(b, InsertEvent(b, e, kind, payload, now))
  {
    var b' := InsertEvent(b, e, kind, payload, now);
    forall m | m in b'.queue ensures Traced(b', m) {
      TracedExtends(b, b', m);
    }
    forall w | w in b'.batches ensures BatchOk(b', b'.batches[w]) {
      assert BatchOk(b, b.batches[w]);
    }
  }

  lemma TakeKeepsInv<M>(b: Box<M>)
    requires BoxInv(b) && b.queue != []
    ensures BoxInv(TakeMessage(b))
    ensures Traced(b, b.queue[0])
  {
    var b' := TakeMessage(b);
    forall m | m in b'.queue ensures Traced(b', m) {
      TracedExtends(b, b', m);
    }
    forall w | w in b'.batches ensures BatchOk(b', b'.batches[w]) {
      assert BatchOk(b, b.batches[w]);
    }
  }

  // ----- a table and the events announcing its rows ------------------------------------------------

  ghost predicate Announces<K, M>(rows: map<EventId, Row<M>>, keyOf: M -> K, e: EventId, k: K) {
    e in rows && keyOf(rows[e].payload) == k
  }

  /** Rows of the table and events correspond one to one, and each event carries the image of its row. */
  ghost predicate Mirrors<K(!new), V, M>(
    table: map<K, V>, rows: map<EventId, Row<M>>, kind: string, keyOf: M -> K, image: (K, V) -> M)
  {
    && (forall e | e in rows ::
          var p := rows[e].payload;
          rows[e].kind == kind && keyOf(p) in table && p == image(keyOf(p), table[keyOf(p)]))
    && (forall k | k in table :: exists e :: Announces(rows, keyOf, e, k))
    && (forall e, f, k | Announces(rows, keyOf, e, k) && Announces(rows, keyOf, f, k) :: e == f)
  }

  lemma MirrorsLater<K(!new), V, M>(
    table: map<K, V>, a: Box<M>, b: Box<M>, kind: string, keyOf: M -> K, image: (K, V) -> M)
    requires Mirrors(table, a.rows, kind, keyOf, image)
    requires Extends(a, b) && b.rows.Keys == a.rows.Keys
    ensures Mirrors(table, b.rows, kind, keyOf, image)
  {
    forall k | k in table ensures exists e :: Announces(b.rows, keyOf, e, k) {
      var e :| Announces(a.rows, keyOf, e, k);
      assert Announces(b.rows, keyOf, e, k);
    }
    forall e, f, k | Announces(b.rows, keyOf, e, k) && Announces(b.rows, keyOf, f, k) ensures e == f {
      assert Announces(a.rows, keyOf, e, k) && Announces(a.rows, keyOf, f, k);
    }
  }

  lemma MirrorsInsert<K(!new), V, M>(
    table: map<K, V>, rows: map<EventId, Row<M>>, kind: string, keyOf: M -> K, image: (K, V) -> M,
    k: K, v: V, e: EventId, now: int)
    requires Mirrors(table, rows, kind, keyOf, image)
    requires k !in table && e !in rows && keyOf(image(k, v)) == k
    ensures Mirrors(table[k := v], rows[e := Row(kind, image(k, v), Pending, now)], kind, keyOf, image)
  {
    var table', rows' := table[k := v], rows[e := Row(kind, image(k, v), Pending, now)];
    forall j | j in table' ensures exists f :: Announces(rows', keyOf, f, j) {
      if j == k {
        assert Announces(rows', keyOf, e, j);
      } else {
        var f :| Announces(rows, keyOf, f, j);
        assert Announces(rows', keyOf, f, j);
      }
    }
    forall f, g, j | Announces(rows', keyOf, f, j) && Announces(rows', keyOf, g, j) ensures f == g {
      assert f == e || Announces(rows, keyOf, f, j);
      assert g == e || Announces(rows, keyOf, g, j);
    }
  }
}
