/**
 * The per-session write pump as a value: messages posted to the strand, the write queue, and the
 * asynchronous writes started and not yet completed. Over any interleaving of posts and completions it is a
 * FIFO, and it never starts a write while one is outstanding.
 */
module WritePump {
  /** `outstanding` are the writes in progress, oldest first; `written` and `failed` are history: what
      completed, and whether a write reported an error. */
  datatype Pump<M> = Pump(
    mailbox: seq<M>, queue: seq<M>, writing: bool, outstanding: seq<M>, written: seq<M>, failed: bool)

  function Idle<M>(): Pump<M> { Pump([], [], false, [], [], false) }

  datatype Event<M> =
    | Post(message: M)         // `send` from any thread
    | RunPosted                // the strand runs the oldest posted `enqueue_write`
    | WriteDone(error: bool)   // the completion of the oldest outstanding write

  /** A completion finds the queue nonempty, which `PumpOk` guarantees: nothing pops an empty queue. */
  predicate Possible<M>(p: Pump<M>, e: Event<M>) {
    match e
    case Post(_) => true
    case RunPosted => p.mailbox != []
    case WriteDone(_) => p.outstanding != [] && p.queue != []
  }

  /** `do_write`: start writing the front of the queue, whatever else is outstanding, or stop. */
  function Started<M>(p: Pump<M>): Pump<M> {
    if p.queue == [] then p.(writing := false)
    else p.(writing := true, outstanding := p.outstanding + [p.queue[0]])
  }

  function Enqueued<M>(p: Pump<M>, m: M): Pump<M> {
    var q := p.(queue := p.queue + [m]);
    if p.writing then q else Started(q)
  }

  function Completed<M>(p: Pump<M>, error: bool): Pump<M>
    requires p.outstanding != [] && p.queue != []
  {
    var q := p.(outstanding := p.outstanding[1..]);
    if error then q.(failed := true)
    else Started(q.(written := p.written + [p.outstanding[0]], queue := p.queue[1..]))
  }

  function After<M>(p: Pump<M>, e: Event<M>): Pump<M>
    requires Possible(p, e)
  {
    match e
    case Post(m) => p.(mailbox := p.mailbox + [m])
    case RunPosted => Enqueued(p.(mailbox := p.mailbox[1..]), p.mailbox[0])
    case WriteDone(error) => Completed(p, error)
  }

  ghost predicate IsHistory<M>(p: Pump<M>, events: seq<Event<M>>)
    decreases |events|, 0
  {
    events == [] ||
    (IsHistory(p, events[..|events| - 1]) && Possible(Played(p, events[..|events| - 1]), events[|events| - 1]))
  }

  ghost function Played<M>(p: Pump<M>, events: seq<Event<M>>): Pump<M>
    requires IsHistory(p, events)
    decreases |events|, 1
  {
    if events == [] then p else After(Played(p, events[..|events| - 1]), events[|events| - 1])
  }

  function Posted<M>(events: seq<Event<M>>): seq<M> {
    if events == [] then []
    else
      Posted(events[..|events| - 1])
        + if events[|events| - 1].Post? then [events[|events| - 1].message] else []
  }

  /** Until an error exactly one write is outstanding, of the front, while the queue is nonempty, and none
      otherwise; after an error none ever is. */
  ghost predicate PumpOk<M>(p: Pump<M>) {
    if p.failed then p.writing && p.queue != [] && p.outstanding == []
    else
      && (p.writing <==> p.queue != [])
      && p.outstanding == (if p.queue != [] then [p.queue[0]] else [])
  }

  /** Everything sent so far, in order. */
  function Sent<M>(p: Pump<M>): seq<M> { p.written + p.queue + p.mailbox }

  /** Nothing is lost, duplicated or reordered, and no write is started while another is outstanding. */
  lemma {:induction false} PumpIsFifo<M>(events: seq<Event<M>>)
    requires IsHistory(Idle<M>(), events)
    ensures
      var p := Played(Idle<M>(), events);
      PumpOk(p) && Sent(p) == Posted(events)
    decreases |events|
  {
    if events != [] {
      var front := events[..|events| - 1];
      PumpIsFifo(front);
      StepIsFifo(Played(Idle<M>(), front), events[|events| - 1]);
    }
  }

  lemma StepIsFifo<M>(p: Pump<M>, e: Event<M>)
    requires PumpOk(p) && Possible(p, e)
    ensures PumpOk(After(p, e))
    ensures Sent(After(p, e)) == Sent(p) + if e.Post? then [e.message] else []
  {
    match e
    case Post(m) =>
      assert p.written + p.queue + (p.mailbox + [m]) == p.written + p.queue + p.mailbox + [m];
    case RunPosted => EnqueueIsFifo(p);
    case WriteDone(error) => CompletionIsFifo(p, error);
  }

  lemma EnqueueIsFifo<M>(p: Pump<M>)
    requires PumpOk(p) && p.mailbox != []
    ensures PumpOk(After(p, RunPosted)) && Sent(After(p, RunPosted)) == Sent(p)
  {
    var m, rest := p.mailbox[0], p.mailbox[1..];
    Regroup(p.written, p.queue, m, rest);
    assert p.mailbox == [m] + rest;
  }

  lemma CompletionIsFifo<M>(p: Pump<M>, error: bool)
    requires PumpOk(p) && p.outstanding != [] && p.queue != []
    ensures PumpOk(Completed(p, error)) && Sent(Completed(p, error)) == Sent(p)
  {
    var m, rest := p.queue[0], p.queue[1..];
    assert p.queue == [m] + rest;
    assert p.written + ([m] + rest) == p.written + [m] + rest;
  }

  lemma Regroup<M>(a: seq<M>, b: seq<M>, m: M, c: seq<M>)
    ensures a + (b + [m]) + c == a + b + ([m] + c)
  {
  }

  /** A step starts at most one write, and only when none is outstanding or the only one has just completed. */
  lemma StartsAlone<M>(p: Pump<M>, e: Event<M>)
    requires PumpOk(p) && Possible(p, e)
    ensures |After(p, e).outstanding| <= 1
    ensures p.outstanding != [] && !e.WriteDone? ==> After(p, e).outstanding == p.outstanding
  {
    StepIsFifo(p, e);
  }

  /** After an error what was written stays as it is and no write starts, whatever else is sent. */
  lemma {:induction false} FailedIsFinal<M>(p: Pump<M>, events: seq<Event<M>>)
    requires PumpOk(p) && p.failed && IsHistory(p, events)
    ensures
      var q := Played(p, events);
      PumpOk(q) && q.failed && q.written == p.written && q.outstanding == []
    decreases |events|
  {
    if events != [] {
      FailedIsFinal(p, events[..|events| - 1]);
      StepIsFifo(Played(p, events[..|events| - 1]), events[|events| - 1]);
    }
  }

  /** A pump with nothing left to run has written everything that was ever sent. */
  lemma IdleMeansDelivered<M>(events: seq<Event<M>>)
    requires IsHistory(Idle<M>(), events)
    requires
      var p := Played(Idle<M>(), events);
      !p.failed && p.mailbox == [] && p.outstanding == []
    ensures Played(Idle<M>(), events).written == Posted(events)
  {
    PumpIsFifo(events);
  }
}
