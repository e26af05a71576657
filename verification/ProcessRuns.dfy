/** What holds in every run of the DHCP-DDNS process, whatever arrives and in whatever order. */
module ProcessRuns {
  import opened Text
  import opened QueueMgr
  import opened UpdateMgr
  import opened Process

  // ----------------------------------------------------------------- conservation and order

  /** Every client is served in the order its requests arrived, and by one transaction at a time. */
  lemma ClientsServedInOrder(e: Engine, maxQueue: nat, maxTransactions: nat, cfg: Config)
    requires Reachable(e, maxQueue, maxTransactions, cfg)
    ensures forall d :: Of(e.updates.taken, d) + Of(e.queue.requests, d) == Of(e.queue.accepted, d)
    ensures forall j, k :: j in e.updates.transactions && k in e.updates.transactions && j != k ==>
              e.updates.transactions[j].request.dhcid != e.updates.transactions[k].request.dhcid
    ensures |e.queue.requests| <= e.queue.max && |e.updates.transactions| <= e.updates.max
  {
    ReachableInv(e, maxQueue, maxTransactions, cfg);
  }

  function Count(b: bool): nat {
    if b then 1 else 0
  }

  /** In how many of its four possible places a request is. */
  function Places(e: Engine, id: nat): nat {
    Count(id in QueuedIds(e.queue.requests)) + Count(id in FlightIds(e.updates.transactions))
    + Count(id in e.updates.dropped) + Count(id in e.updates.finished)
  }

  /** Every accepted request is queued, in flight, dropped or finished: exactly one of the four;
      and nothing that was not accepted is anywhere. */
  lemma ExactlyOnePlace(e: Engine, maxQueue: nat, maxTransactions: nat, cfg: Config, id: nat)
    requires Reachable(e, maxQueue, maxTransactions, cfg)
    ensures Places(e, id) == Count(id < |e.queue.accepted|)
  {
    ReachableInv(e, maxQueue, maxTransactions, cfg);
    assert id in UpTo(|e.queue.accepted|) <==> id < |e.queue.accepted|;
  }

  /** The loop returns only from a state in which `canShutdown` holds. */
  lemma {:induction false} ExitedCould(e: Engine, events: seq<Event>)
    requires e.phase.Exited? ==> CanShutdown(e)
    ensures Run(e, events).phase.Exited? ==> CanShutdown(Run(e, events))
    decreases |events|
  {
    if events != [] { ExitedCould(Step(e, events[0]), events[1..]); }
  }

  /** After a drain_first shutdown every request ever accepted is finished or was dropped; after a
      normal one the rest are still queued and nothing is in flight. */
  lemma ExitAccounts(e: Engine, maxQueue: nat, maxTransactions: nat, cfg: Config, id: nat)
    requires Reachable(e, maxQueue, maxTransactions, cfg)
    requires e.phase.Exited? && id < |e.queue.accepted|
    ensures e.shutdownType.DrainFirst? ==> id in e.updates.finished + e.updates.dropped
    ensures e.shutdownType.Normal? ==> id in e.updates.finished + e.updates.dropped + QueuedIds(e.queue.requests)
    ensures !e.shutdownType.Now? ==> e.updates.transactions == map[] && QueueQuiet(e.queue)
  {
    ReachableInv(e, maxQueue, maxTransactions, cfg);
    var events :| e == Run(InitialEngine(maxQueue, maxTransactions, cfg), events);
    ExitedCould(InitialEngine(maxQueue, maxTransactions, cfg), events);
    assert id in UpTo(|e.queue.accepted|);
    if !e.shutdownType.Now? {
      assert e.updates.transactions == map[];
      assert FlightIds(e.updates.transactions) == {};
    }
  }

  /** While a later request is taken, every earlier one left behind belongs to a busy client. */
  lemma {:induction false} OvertakesOnlyBusy(q: Queue, u: Updates, cfg: Config, endsAtOnce: bool, left: Ncr)
    requires Books(q, u)
    requires var s := Sweep(q, u, cfg, endsAtOnce);
             && |s.updates.taken| > |u.taken|
             && left in s.queue.requests && left.id < s.updates.taken[|s.updates.taken| - 1].id
    ensures left.dhcid in u.transactions && !u.transactions[left.dhcid].done
  {
    var i := SweepEffect(q, u, cfg, endsAtOnce);
    TakeSplitsQueue(q, i);
    var rest := RemoveAt(q.requests, i);
    var k :| 0 <= k < |rest| && rest[k] == left;
    assert left == q.requests[if k < i then k else k + 1];
    assert k < i;
    assert left.dhcid in Reap(u).transactions;
  }

  /** What a sweep takes: nothing, or request `i`, every client before it being busy. */
  lemma SweepEffect(q: Queue, u: Updates, cfg: Config, endsAtOnce: bool) returns (i: nat)
    ensures var s := Sweep(q, u, cfg, endsAtOnce);
            && s.queue == q.(requests := s.queue.requests)
            && (|s.updates.taken| > |u.taken| ==>
                  && i < |q.requests| && s.queue.requests == RemoveAt(q.requests, i)
                  && s.updates.taken == u.taken + [q.requests[i]]
                  && forall k :: 0 <= k < i ==> q.requests[k].dhcid in Reap(u).transactions)
            && |u.taken| <= |s.updates.taken|
  {
    i := FirstEligible(q.requests, Reap(u).transactions.Keys);
  }

  // ----------------------------------------------------------------- back-pressure

  lemma CheckQueueEffect(e: Engine, o: Opening)
    ensures var e' := CheckQueueStatus(e, o);
            e'.queue.max == e.queue.max && e'.queue.accepted == e.queue.accepted && e'.updates == e.updates
  {
  }

  /** Limits never change and taken requests stay taken. */
  lemma StepMonotone(e: Engine, ev: Event)
    ensures var e' := Step(e, ev);
            && e'.queue.max == e.queue.max
            && |e.updates.taken| <= |e'.updates.taken|
            && |e.queue.accepted| <= |e'.queue.accepted|
  {
    match ev
    case Turn(o, ends) =>
      CheckQueueEffect(e, o);
      var e1 := CheckQueueStatus(e, o);
      var _ := SweepEffect(e1.queue, e1.updates, e1.cfg, ends);
    case Receive(r, nextOk) => DeliverEffect(e.queue, Fresh(r, |e.queue.accepted|), nextOk);
    case _ =>
  }

  lemma {:induction false} RunMonotone(e: Engine, events: seq<Event>)
    ensures var e' := Run(e, events);
            && e'.queue.max == e.queue.max
            && |e.updates.taken| <= |e'.updates.taken|
            && |e.queue.accepted| <= |e'.queue.accepted|
    decreases |events|
  {
    if events != [] {
      StepMonotone(e, events[0]);
      RunMonotone(Step(e, events[0]), events[1..]);
    }
  }

  /** The restart threshold leaves a fifth of the queue free, rounded up, even where the product
      wraps around. */
  lemma {:induction false} ThresholdLeavesFifth(max: nat)
    requires 1 <= max
    ensures max - Threshold(max) >= (max + 4) / 5 >= 1
  {
    assert max * QUEUE_RESTART_PERCENT % SIZE_MODULUS <= max * QUEUE_RESTART_PERCENT;
  }

  /** Filling up from at or below the threshold takes at least a fifth of the queue in new requests. */
  lemma FillingAccepts(e: Engine, events: seq<Event>)
    requires Inv(e) && !e.phase.Failed? && |e.queue.requests| <= Threshold(e.queue.max)
    requires var e' := Run(e, events); !e'.phase.Failed? && |e'.queue.requests| >= e'.queue.max
    ensures |Run(e, events).queue.accepted| - |e.queue.accepted| >= (e.queue.max + 4) / 5 >= 1
  {
    RunKeepsInv(e, events);
    RunMonotone(e, events);
    ThresholdLeavesFifth(e.queue.max);
  }

  /** The loop resumes a full queue only at or below the threshold, and accepts nothing by it. */
  lemma {:induction false} ResumesBelowThreshold(e: Engine, ev: Event)
    requires Inv(e) && e.phase.Top? && e.queue.state.StoppedQueueFull? && Step(e, ev).queue.state.Running?
    ensures var e0 := Step(e, ev);
            && |e0.queue.requests| <= Threshold(e0.queue.max)
            && e0.queue.max == e.queue.max && e0.queue.accepted == e.queue.accepted
  {
    if !CanShutdown(e) {
      CheckQueueKeepsListener(e, ev.opening);
      var e1 := CheckQueueStatus(e, ev.opening);
      SweepKeepsListener(e1.queue, e1.updates, e1.cfg, ev.endsAtOnce);
    }
  }

  /** A receive that stops the queue as full found it full, and is not accepted. */
  lemma {:induction false} StopFindsFull(e: Engine, stop: Event)
    requires Inv(e) && !e.phase.Failed? && !e.queue.state.StoppedQueueFull?
    requires stop.Receive? && Step(e, stop).queue.state.StoppedQueueFull?
    ensures |e.queue.requests| >= e.queue.max && |Step(e, stop).queue.accepted| == |e.queue.accepted|
  {
    var r := Fresh(stop.receipt, |e.queue.accepted|);
    StopsFullOnlyWhenFull(e.queue, r, stop.nextOk);
    DeliverEffect(e.queue, r, stop.nextOk);
  }

  /** The three stretches together, each between named states. */
  lemma {:induction false} FlapCosts(e: Engine, e0: Engine, events: seq<Event>, e1: Engine)
    requires Inv(e0) && !e0.phase.Failed? && |e0.queue.requests| <= Threshold(e0.queue.max)
    requires e0.queue.max == e.queue.max && e0.queue.accepted == e.queue.accepted
    requires e1 == Run(e0, events) && !e1.phase.Failed? && |e1.queue.requests| >= e1.queue.max
    ensures |e1.queue.accepted| - |e.queue.accepted| >= (e.queue.max + 4) / 5 >= 1
  {
    FillingAccepts(e0, events);
  }

  /** Back-pressure cannot flap: between the resume of a full queue and its next stop as full, at
      least a fifth of the queue's capacity, and never zero, is accepted, whatever is dequeued
      meanwhile. */
  lemma {:induction false} NoFlapping(e: Engine, resume: Event, events: seq<Event>, stop: Event)
    requires Inv(e) && e.phase.Top? && e.queue.state.StoppedQueueFull?
    requires Step(e, resume).queue.state.Running? && !Step(e, resume).phase.Failed?
    requires var e1 := Run(Step(e, resume), events);
             && !e1.phase.Failed? && !e1.queue.state.StoppedQueueFull?
             && stop.Receive? && Step(e1, stop).queue.state.StoppedQueueFull?
    ensures var e1 := Run(Step(e, resume), events);
            |Step(e1, stop).queue.accepted| - |e.queue.accepted| >= (e.queue.max + 4) / 5 >= 1
  {
    ResumesBelowThreshold(e, resume);
    StepKeepsInv(e, resume);
    var e0 := Step(e, resume);
    RunKeepsInv(e0, events);
    var e1 := Run(e0, events);
    StopFindsFull(e1, stop);
    FlapCosts(e, e0, events, e1);
  }

  // ----------------------------------------------------------------- the listener's guards

  /** In every run: no listener exactly while not initialised, a stop in progress aims at STOPPED,
      and none of the state guards of the queue manager can fire when the loop calls it.  What is
      left to throw is the socket.  A listener is never removed with a receive outstanding. */
  lemma GuardsNeverFire(e: Engine, maxQueue: nat, maxTransactions: nat, cfg: Config, o: Opening)
    requires Reachable(e, maxQueue, maxTransactions, cfg)
    ensures e.queue.listener.None? <==> e.queue.state.NotInitted?
    ensures e.queue.state.Stopping? ==> e.queue.target.Stopped?
    ensures e.queue.state.Running? ==> !StopListening(e.queue, Stopped).threw
    ensures e.queue.state.StoppedQueueFull? && o.Opens? ==> !StartListening(e.queue, o).threw
    ensures QueueQuiet(e.queue) ==>
              var removed := RemoveListener(e.queue);
              var inited := InitListener(removed.queue);
              && !removed.threw && !inited.threw && (o.Opens? ==> !StartListening(inited.queue, o).threw)
              && (e.queue.listener.Some? ==> !e.queue.listener.value.receiving)
  {
    ReachableInv(e, maxQueue, maxTransactions, cfg);
  }

  // ----------------------------------------------------------------- a stop that never completes

  lemma WedgedStep(e: Engine, ev: Event)
    requires Wedged(e.queue)
    ensures Wedged(Step(e, ev).queue) && Step(e, ev).queue.accepted == e.queue.accepted
    ensures Step(e, ev).phase.Exited? && !e.phase.Exited? ==> Step(e, ev).shutdownType.Now?
  {
    if e.phase.Top? && ev.Turn? && !CanShutdown(e) {
      var e1 := CheckQueueStatus(e, ev.opening);
      assert e1 == e;
      var _ := SweepEffect(e.queue, e.updates, e.cfg, ev.endsAtOnce);
    }
  }

  /** Once wedged, the queue manager stays in STOPPING for ever, accepts nothing more, and the loop
      can return only through an immediate shutdown. */
  lemma {:induction false} WedgedForever(e: Engine, events: seq<Event>)
    requires Wedged(e.queue) && !e.phase.Exited?
    ensures Wedged(Run(e, events).queue) && Run(e, events).queue.accepted == e.queue.accepted
    ensures Run(e, events).phase.Exited? ==> Run(e, events).shutdownType.Now?
    decreases |events|
  {
    if events != [] {
      WedgedStep(e, events[0]);
      var e1 := Step(e, events[0]);
      if e1.phase.Exited? { ExitedStays(e1, events[1..]); } else { WedgedForever(e1, events[1..]); }
    }
  }

  lemma {:induction false} ExitedStays(e: Engine, events: seq<Event>)
    requires e.phase.Exited?
    ensures Run(e, events) == e
    decreases |events|
  {
    if events != [] { ExitedStays(Step(e, events[0]), events[1..]); }
  }

  lemma {:induction false} RunConcat(e: Engine, a: seq<Event>, b: seq<Event>)
    ensures Run(e, a + b) == Run(Run(e, a), b)
    decreases |a|
  {
    if a == [] {
      assert a + b == b;
    } else {
      assert (a + b)[1..] == a[1..] + b;
      RunConcat(Step(e, a[0]), a[1..], b);
    }
  }

  lemma Append(e0: Engine, events: seq<Event>, e: Engine, ev: Event) returns (events': seq<Event>)
    requires e == Run(e0, events)
    ensures Step(e, ev) == Run(e0, events')
  {
    events' := events + [ev];
    RunConcat(e0, events, [ev]);
    assert Run(e, [ev]) == Run(Step(e, ev), [ev][1..]);
  }

  /** A configured process that has just started to listen. */
  lemma Started(maxQueue: nat, maxTransactions: nat, cfg: Config) returns (e: Engine, evs: seq<Event>)
    requires 1 <= maxQueue && 1 <= maxTransactions
    ensures e == Run(InitialEngine(maxQueue, maxTransactions, cfg), evs)
    ensures e.queue.state.Running? && e.queue.listener == Some(Listener(true, true, true)) && e.phase == Io(0)
    ensures e.queue.requests == [] && e.queue.accepted == [] && e.queue.max == maxQueue
    ensures e.updates == Updates(map[], maxTransactions, [], {}, {}) && e.cfg == cfg
  {
    var e0 := InitialEngine(maxQueue, maxTransactions, cfg);
    var turn := Turn(Opens, false);
    var e1 := Step(e0, turn);
    evs := Append(e0, [], e0, turn);
    var e2 := Step(e1, Configure(true, false, cfg));
    evs := Append(e0, evs, e1, Configure(true, false, cfg));
    var e3 := Step(e2, EndIo);
    evs := Append(e0, evs, e2, EndIo);
    e := Step(e3, turn);
    evs := Append(e0, evs, e3, turn);
    assert e0.updates.transactions == map[] && Reap(e0.updates) == e0.updates;
  }

  /** And a run gets there: configure, start, ask for a shutdown, and let a request arrive that the
      IO service had already completed when the socket was closed. */
  lemma WedgeIsReachable(maxQueue: nat, maxTransactions: nat, cfg: Config, ncr: Ncr) returns (e: Engine)
    requires 1 <= maxQueue && 1 <= maxTransactions
    ensures Reachable(e, maxQueue, maxTransactions, cfg) && Wedged(e.queue)
  {
    var e0 := InitialEngine(maxQueue, maxTransactions, cfg);
    var turn := Turn(Opens, false);
    var e4, evs := Started(maxQueue, maxTransactions, cfg);
    var e5 := Step(e4, ShutdownCommand(None));
    evs := Append(e0, evs, e4, ShutdownCommand(None));
    var e6 := Step(e5, EndIo);
    evs := Append(e0, evs, e5, EndIo);
    var e7 := Step(e6, turn);
    evs := Append(e0, evs, e6, turn);
    assert e7.queue.state.Stopping? && Deliverable(e7.queue);
    e := Step(e7, Receive(Received(ncr), true));
    evs := Append(e0, evs, e7, Receive(Received(ncr), true));
  }
}
