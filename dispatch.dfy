/**
 * The dispatch loop (`PollForMessages` in the adapter), run sequentially:
 * deliveries from the broker stream are admitted into a relay queue of
 * capacity Parallelism; a worker turn takes the queue's head and disposes of
 * it; on the stop signal or the end of the stream the queue is closed and
 * drained, and the loop returns nil.
 */
module Dispatch {
  import opened Wrappers
  import opened AdapterTypes
  import opened Forwarding
  import opened Worker

  /** What the dispatch loop's `select` can observe next. */
  datatype Event = Deliver(delivery: Delivery) | Stop | StreamClosed

  /**
   * How a run of the dispatch loop over a finite stretch of events ends:
   * it returned, it is still waiting for the next event, it is blocked for
   * ever on a send no worker will receive, or it panicked.
   */
  datatype PollOutcome = Returned(err: Option<Error>) | Waiting | Deadlocked | Panicked

  /** The deliveries in `events` before the first Stop or StreamClosed. */
  function DeliveriesUntilStop(events: seq<Event>): seq<Delivery> {
    if events == [] || !events[0].Deliver? then []
    else [events[0].delivery] + DeliveriesUntilStop(events[1..])
  }

  /** Every delivery in `events`, whatever else occurs among them. */
  function DeliveriesIn(events: seq<Event>): seq<Delivery> {
    if events == [] then []
    else (if events[0].Deliver? then [events[0].delivery] else []) + DeliveriesIn(events[1..])
  }

  predicate HasTerminal(events: seq<Event>) {
    exists j :: 0 <= j < |events| && !events[j].Deliver?
  }

  /** The position of the first Stop or StreamClosed, or |events| if there is none. */
  function StopIndex(events: seq<Event>): (k: nat)
    ensures k <= |events|
    ensures forall j :: 0 <= j < k ==> events[j].Deliver?
    ensures k < |events| ==> !events[k].Deliver?
  {
    if events == [] || !events[0].Deliver? then 0
    else 1 + StopIndex(events[1..])
  }

  /** The admitted deliveries are exactly the deliveries of the stream before the first Stop or StreamClosed. */
  lemma {:induction false} UntilStopIsPrefix(events: seq<Event>)
    ensures DeliveriesUntilStop(events) == DeliveriesIn(events[..StopIndex(events)])
  {
    if events != [] && events[0].Deliver? {
      UntilStopIsPrefix(events[1..]);
      assert events[..StopIndex(events)][1..] == events[1..][..StopIndex(events[1..])];
    } else {
      assert events[..StopIndex(events)] == [];
    }
  }

  lemma UntilStopStep(events: seq<Event>, i: nat)
    requires i < |events| && events[i].Deliver?
    ensures DeliveriesUntilStop(events[i..]) == [events[i].delivery] + DeliveriesUntilStop(events[i + 1..])
  {
    assert events[i..][1..] == events[i + 1..];
  }

  /** Nothing after the first Stop or StreamClosed is ever admitted, whatever it is. */
  lemma {:induction false} LaterEventsIgnored(events: seq<Event>, tail: seq<Event>)
    requires StopIndex(events) < |events|
    ensures var cut := events[..StopIndex(events) + 1] + tail;
      DeliveriesUntilStop(cut) == DeliveriesUntilStop(events) && HasTerminal(cut)
  {
    var cut := events[..StopIndex(events) + 1] + tail;
    assert !cut[StopIndex(events)].Deliver?;
    if events[0].Deliver? {
      assert cut[1..] == events[1..][..StopIndex(events[1..]) + 1] + tail;
      LaterEventsIgnored(events[1..], tail);
    }
  }

  /**
   * The relay queue (the buffered `workerQueue` channel) together with the
   * workers reading from it. `admitted` records every delivery ever put in
   * the queue; the ones no longer buffered have been taken by a worker and
   * disposed of, in queue order.
   */
  class RelayQueue {
    const cfg: Config
    const capacity: nat
    const sink: Delivery -> Outcomes
    var buffer: seq<Delivery>
    var closed: bool
    var dispositions: seq<Disposition>
    var reports: seq<Report>
    ghost var admitted: seq<Delivery>

    ghost predicate Valid()
      reads this
    {
      && |buffer| <= capacity
      && |buffer| <= |admitted|
      && buffer == admitted[|admitted| - |buffer|..]
      && dispositions == DispositionsOf(cfg, Taken(), sink)
      && reports == ReportsOf(cfg, Taken(), sink)
    }

    /** The admitted deliveries workers have already taken. */
    ghost function Taken(): seq<Delivery>
      reads this
      requires |buffer| <= |admitted|
    {
      admitted[..|admitted| - |buffer|]
    }

    /** `make(chan wabbit.Delivery, workerCount)` with its workers started. */
    constructor (cfg: Config, capacity: nat, sink: Delivery -> Outcomes)
      ensures Valid()
      ensures this.cfg == cfg && this.capacity == capacity && this.sink == sink
      ensures buffer == [] && admitted == [] && !closed
      ensures dispositions == [] && reports == []
    {
      this.cfg, this.capacity, this.sink := cfg, capacity, sink;
      buffer, closed := [], false;
      dispositions, reports := [], [];
      admitted := [];
      new;
      assert Taken() == [];
      assert DispositionsOf(cfg, [], sink) == [];
      assert ReportsOf(cfg, [], sink) == [];
    }

    /** `workerQueue <- msg` when the queue has room; sending on a closed channel is never done. */
    method Admit(d: Delivery)
      requires Valid() && !closed && |buffer| < capacity
      modifies this
      ensures Valid() && !closed
      ensures buffer == old(buffer) + [d] && admitted == old(admitted) + [d]
      ensures dispositions == old(dispositions) && reports == old(reports)
    {
      buffer := buffer + [d];
      admitted := admitted + [d];
      assert Taken() == old(Taken());
    }

    /** `close(workerQueue)`: no further delivery can be admitted. */
    method Close()
      requires Valid() && !closed
      modifies this
      ensures Valid() && closed
      ensures buffer == old(buffer) && admitted == old(admitted)
      ensures dispositions == old(dispositions) && reports == old(reports)
    {
      closed := true;
    }

    /**
     * One iteration of a worker's loop: take the head of the queue, forward
     * it, and Ack it on success or Nack it without requeue on failure.
     */
    method Receive()
      requires Valid() && buffer != []
      modifies this
      ensures Valid() && closed == old(closed) && admitted == old(admitted)
      ensures buffer == old(buffer)[1..]
      ensures dispositions == old(dispositions) + [Dispose(cfg, old(buffer)[0], sink(old(buffer)[0]))]
      ensures reports == old(reports) + ReportFor(cfg, old(buffer)[0], sink(old(buffer)[0]))
    {
      var msg := buffer[0];
      var o := sink(msg);
      var posted := PostMessage(cfg, msg, o);
      if posted.err.None? {
        dispositions := dispositions + [Ack(msg.deliveryTag, false)];
      } else {
        dispositions := dispositions + [Nack(msg.deliveryTag, false, false)];
      }
      if posted.report.Some? {
        reports := reports + [posted.report.value];
      }
      assert dispositions == old(dispositions) + [Dispose(cfg, msg, o)];
      assert reports == old(reports) + ReportFor(cfg, msg, o);
      ghost var before := old(Taken());
      buffer := buffer[1..];
      assert buffer == admitted[|admitted| - |buffer|..];
      assert Taken() == before + [msg];
      DispositionsOfAppend(cfg, before, [msg], sink);
      ReportsOfAppend(cfg, before, [msg], sink);
    }

    /**
     * `for msg := range queue` over the closed queue, the drain the
     * dispatch loop waits for: every buffered delivery is disposed of, in
     * queue order.
     */
    method ProcessMessages()
      requires Valid() && closed
      modifies this
      ensures Valid() && closed && buffer == [] && admitted == old(admitted)
      ensures dispositions == old(dispositions) + DispositionsOf(cfg, old(buffer), sink)
      ensures reports == old(reports) + ReportsOf(cfg, old(buffer), sink)
    {
      ghost var taken, queue := Taken(), buffer;
      assert admitted == taken + queue;
      while buffer != []
        invariant Valid() && closed && admitted == old(admitted)
        decreases |buffer|
      {
        Receive();
      }
      assert Taken() == admitted;
      DispositionsOfAppend(cfg, taken, queue, sink);
      ReportsOfAppend(cfg, taken, queue, sink);
    }
    /**
     * `workerQueue <- msg`: when the queue is full, the send waits until a
     * worker has taken the head; with no workers and no buffer it waits for
     * ever, and `blocked` says so.
     */
    method Send(d: Delivery) returns (blocked: bool)
      requires Valid() && !closed
      modifies this
      ensures Valid() && !closed
      ensures blocked <==> capacity == 0
      ensures blocked ==> admitted == old(admitted) && buffer == old(buffer)
      ensures blocked ==> dispositions == old(dispositions) && reports == old(reports)
      ensures !blocked ==> admitted == old(admitted) + [d]
      ensures !blocked && |old(buffer)| < capacity ==>
        && buffer == old(buffer) + [d]
        && dispositions == old(dispositions) && reports == old(reports)
      ensures !blocked && |old(buffer)| == capacity ==>
        && buffer == old(buffer)[1..] + [d]
        && dispositions == old(dispositions) + [Dispose(cfg, old(buffer)[0], sink(old(buffer)[0]))]
        && reports == old(reports) + ReportFor(cfg, old(buffer)[0], sink(old(buffer)[0]))
    {
      if |buffer| == capacity {
        if capacity == 0 {
          return true;
        }
        Receive();
      }
      Admit(d);
      return false;
    }

    /**
     * The `for { select }` loop up to its first exit: admits the deliveries
     * of `events` in order and stops at the first Stop or StreamClosed
     * (`stopped`), at the end of `events`, or on a send that can never
     * complete (`blocked`).
     */
    method AdmitUntilStop(events: seq<Event>) returns (stopped: bool, blocked: bool)
      requires Valid() && !closed && admitted == []
      modifies this
      ensures Valid() && !closed
      ensures blocked <==> capacity == 0 && DeliveriesUntilStop(events) != []
      ensures !blocked ==> (stopped <==> HasTerminal(events))
      ensures !blocked ==> admitted == DeliveriesUntilStop(events)
    {
      var i := 0;
      while i < |events| && events[i].Deliver?
        invariant 0 <= i <= |events|
        invariant forall j :: 0 <= j < i ==> events[j].Deliver?
        invariant Valid() && !closed
        invariant DeliveriesUntilStop(events) == admitted + DeliveriesUntilStop(events[i..])
        invariant capacity == 0 ==> admitted == []
      {
        ghost var before, rest := admitted, DeliveriesUntilStop(events[i + 1..]);
        UntilStopStep(events, i);
        blocked := Send(events[i].delivery);
        if blocked {
          return false, true;
        }
        assert admitted + rest == before + ([events[i].delivery] + rest);
        i := i + 1;
      }
      if i == |events| {
        assert events[i..] == [];
      }
      return i < |events|, false;
    }

    /**
     * `close(workerQueue)` followed by `wg.Wait()`: once the workers have
     * drained the queue, every delivery ever admitted has been disposed of.
     */
    method Shutdown()
      requires Valid() && !closed
      modifies this
      ensures Valid() && closed && buffer == [] && admitted == old(admitted)
      ensures dispositions == DispositionsOf(cfg, admitted, sink)
      ensures reports == ReportsOf(cfg, admitted, sink)
    {
      ghost var taken, queued := Taken(), buffer;
      assert taken + queued == admitted;
      Close();
      ProcessMessages();
      DispositionsOfAppend(cfg, taken, queued, sink);
      ReportsOfAppend(cfg, taken, queued, sink);
    }
  }

  /**
   * The body of the dispatch loop for a non-negative Parallelism: make the
   * relay queue, admit deliveries until the first Stop or StreamClosed, then
   * close and drain it. `blocked` reports a send that can never complete,
   * `stopped` that the loop reached its return.
   */
  method RunRelay(cfg: Config, events: seq<Event>, sink: Delivery -> Outcomes)
    returns (stopped: bool, blocked: bool, dispositions: seq<Disposition>, reports: seq<Report>, pending: seq<Delivery>)
    requires cfg.parallelism >= 0
    ensures blocked <==> cfg.parallelism == 0 && DeliveriesUntilStop(events) != []
    ensures blocked ==> !stopped && dispositions == [] && reports == [] && pending == []
    ensures !blocked ==> (stopped <==> HasTerminal(events))
    ensures stopped ==>
      && pending == []
      && dispositions == DispositionsOf(cfg, DeliveriesUntilStop(events), sink)
      && reports == ReportsOf(cfg, DeliveriesUntilStop(events), sink)
    ensures !blocked && !stopped ==>
      var admitted := DeliveriesUntilStop(events);
      && |pending| <= cfg.parallelism && |pending| <= |admitted|
      && pending == admitted[|admitted| - |pending|..]
      && dispositions == DispositionsOf(cfg, admitted[..|admitted| - |pending|], sink)
      && reports == ReportsOf(cfg, admitted[..|admitted| - |pending|], sink)
  {
    var q := new RelayQueue(cfg, cfg.parallelism, sink);
    stopped, blocked := q.AdmitUntilStop(events);
    if blocked {
      return false, true, [], [], [];
    }
    ghost var admitted := DeliveriesUntilStop(events);
    assert q.admitted == admitted;
    if stopped {
      q.Shutdown();
      assert q.dispositions == DispositionsOf(cfg, admitted, sink);
      assert q.reports == ReportsOf(cfg, admitted, sink);
      return true, false, q.dispositions, q.reports, [];
    }
    assert q.dispositions == DispositionsOf(cfg, q.Taken(), sink);
    assert q.reports == ReportsOf(cfg, q.Taken(), sink);
    return false, false, q.dispositions, q.reports, q.buffer;
  }

  /**
   * The dispatch loop over a finite stretch of events. Parallelism workers
   * read a relay queue of capacity Parallelism; each delivery is admitted in
   * stream order, after one worker turn when the queue is full. At the first
   * Stop or StreamClosed the queue is closed, drained and nil returned, so
   * every admitted delivery has exactly one disposition by then. A negative
   * Parallelism makes `wg.Add` panic; with zero, the first delivery is sent
   * on an unbuffered channel nobody reads.
   */
  method PollForMessages(cfg: Config, events: seq<Event>, sink: Delivery -> Outcomes)
    returns (outcome: PollOutcome, dispositions: seq<Disposition>, reports: seq<Report>, pending: seq<Delivery>)
    ensures outcome == Panicked <==> cfg.parallelism < 0
    ensures outcome == Deadlocked <==> cfg.parallelism == 0 && DeliveriesUntilStop(events) != []
    ensures outcome.Returned? <==>
      cfg.parallelism >= 0 && HasTerminal(events) && !(cfg.parallelism == 0 && DeliveriesUntilStop(events) != [])
    ensures outcome.Returned? ==> outcome.err.None? && pending == []
    ensures outcome.Returned? ==>
      && dispositions == DispositionsOf(cfg, DeliveriesUntilStop(events), sink)
      && reports == ReportsOf(cfg, DeliveriesUntilStop(events), sink)
    ensures outcome == Waiting ==>
      var admitted := DeliveriesUntilStop(events);
      && |pending| <= cfg.parallelism && |pending| <= |admitted|
      && pending == admitted[|admitted| - |pending|..]
      && dispositions == DispositionsOf(cfg, admitted[..|admitted| - |pending|], sink)
      && reports == ReportsOf(cfg, admitted[..|admitted| - |pending|], sink)
    ensures outcome == Deadlocked || outcome == Panicked ==> dispositions == [] && reports == [] && pending == []
  {
    if cfg.parallelism < 0 {
      return Panicked, [], [], [];
    }
    var stopped, blocked;
    stopped, blocked, dispositions, reports, pending := RunRelay(cfg, events, sink);
    if blocked {
      outcome := Deadlocked;
    } else if stopped {
      outcome := Returned(None);
    } else {
      outcome := Waiting;
    }
  }

  /**
   * The stop signal arrives while three deliveries wait for two workers:
   * all three are disposed of, in order, before the loop returns nil.
   */
  method StopWithThreeBuffered(cfg: Config, a: Delivery, b: Delivery, c: Delivery, sink: Delivery -> Outcomes)
    returns (outcome: PollOutcome, dispositions: seq<Disposition>)
    requires cfg.parallelism == 2
    ensures outcome == Returned(None)
    ensures |dispositions| == 3
    ensures dispositions[0].tag == a.deliveryTag && dispositions[1].tag == b.deliveryTag
    ensures dispositions[2].tag == c.deliveryTag
  {
    var events := [Deliver(a), Deliver(b), Deliver(c), Stop];
    assert !events[3].Deliver?;
    assert DeliveriesUntilStop(events) == [a, b, c] by {
      assert events[1..] == [Deliver(b), Deliver(c), Stop];
      assert events[1..][1..] == [Deliver(c), Stop];
      assert events[1..][1..][1..] == [Stop];
      assert DeliveriesUntilStop([Stop]) == [];
      assert DeliveriesUntilStop([Deliver(c), Stop]) == [c];
      assert DeliveriesUntilStop([Deliver(b), Deliver(c), Stop]) == [b, c];
    }
    var reports, pending;
    outcome, dispositions, reports, pending := PollForMessages(cfg, events, sink);
  }
}
