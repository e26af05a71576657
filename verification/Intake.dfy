/** What a shutdown request does to the intake: when the loop opens the listener again while a shutdown
    is pending, what is accepted then, and when nothing more can be.
 */
module Intake {
  import opened Text
  import opened QueueMgr
  import opened UpdateMgr
  import opened Process
  import opened ProcessRuns

  // ----------------------------------------------------------------- returning needs a command

  /** A shutdown command with an unknown type cancels a pending shutdown and forgets its type. */
  lemma UnknownTypeCancels(e: Engine, t: string)
    requires e.phase.Io? && t != "normal" && t != "drain_first" && t != "now"
    ensures var e' := Step(e, ShutdownCommand(Some(t)));
            !e'.shouldShutdown && e'.shutdownType.Normal? && e'.queue == e.queue && e'.updates == e.updates
  {
  }

  /** Without a pending shutdown the loop does not return until another shutdown command comes. */
  lemma {:induction false} ReturnNeedsCommand(e: Engine, events: seq<Event>)
    requires !e.shouldShutdown && !e.phase.Exited?
    requires forall i :: 0 <= i < |events| ==> !events[i].ShutdownCommand?
    ensures !Run(e, events).phase.Exited? && !Run(e, events).shouldShutdown
    decreases |events|
  {
    if events != [] { ReturnNeedsCommand(Step(e, events[0]), events[1..]); }
  }

  // ----------------------------------------------------------------- opening again

  /** The loop goes on and finds the listener in a state that it answers by listening again: stopped
      as full with room below the threshold, or down with a reconfiguration pending. */
  predicate Reopens(e: Engine) {
    && !CanShutdown(e)
    && (|| (e.queue.state.StoppedQueueFull? && |e.queue.requests| <= Threshold(e.queue.max))
        || ((e.queue.state.NotInitted? || e.queue.state.Initted? || e.queue.state.Stopped?) && e.reconf))
  }

  /** Exactly when a turn of a loop that is shutting down leaves the listener running. */
  lemma {:induction false} ReopensExactly(e: Engine, o: Opening, endsAtOnce: bool)
    requires e.phase.Top? && e.shouldShutdown && ListenerInv(e.queue)
    ensures var e' := Step(e, Turn(o, endsAtOnce));
            !e'.phase.Exited? && e'.queue.state.Running? <==> Reopens(e) && o.Opens?
  {
    if !CanShutdown(e) {
      CheckQueueKeepsListener(e, o);
      var e1 := CheckQueueStatus(e, o);
      SweepKeepsListener(e1.queue, e1.updates, e1.cfg, endsAtOnce);
    }
  }

  /** Then the next request that arrives is accepted, if the turn did not throw and left room. */
  lemma ReopenAccepts(e: Engine, endsAtOnce: bool, ncr: Ncr)
    requires e.phase.Top? && e.shouldShutdown && ListenerInv(e.queue) && Reopens(e)
    requires var e1 := Step(e, Turn(Opens, endsAtOnce)); !e1.phase.Failed? && |e1.queue.requests| < e1.queue.max
    ensures var e1 := Step(e, Turn(Opens, endsAtOnce));
            |Step(e1, Receive(Received(ncr), true)).queue.accepted| == |e.queue.accepted| + 1
  {
    ReopensExactly(e, Opens, endsAtOnce);
    CheckQueueKeepsListener(e, Opens);
    var c := CheckQueueStatus(e, Opens);
    SweepKeepsListener(c.queue, c.updates, c.cfg, endsAtOnce);
    var e1 := Step(e, Turn(Opens, endsAtOnce));
    DeliverEffect(e1.queue, Fresh(Received(ncr), |e1.queue.accepted|), true);
  }

  /** No turn of this run finds the listener in a state that it opens again, and no further shutdown
      command comes. */
  ghost predicate NeverReopens(e: Engine, events: seq<Event>)
    decreases |events|
  {
    events == [] || (&& !(e.phase.Top? && events[0].Turn? && Reopens(e)) && !events[0].ShutdownCommand?
                     && NeverReopens(Step(e, events[0]), events[1..]))
  }

  lemma QuietStep(e: Engine, ev: Event)
    requires e.shouldShutdown && ListenerInv(e.queue) && QueueQuiet(e.queue)
    requires !(e.phase.Top? && ev.Turn? && Reopens(e)) && !ev.ShutdownCommand?
    ensures var e' := Step(e, ev);
            e'.shouldShutdown && ListenerInv(e'.queue) && QueueQuiet(e'.queue) && e'.queue.accepted == e.queue.accepted
  {
    if e.phase.Top? && ev.Turn? && !CanShutdown(e) {
      assert CheckQueueStatus(e, ev.opening) == e;
      SweepKeepsListener(e.queue, e.updates, e.cfg, ev.endsAtOnce);
    }
  }

  /** While a shutdown is pending and the listener is down, nothing is accepted until a turn opens it
      again, whatever is configured meanwhile. */
  lemma {:induction false} QuietUntilReopened(e: Engine, events: seq<Event>)
    requires e.shouldShutdown && ListenerInv(e.queue) && QueueQuiet(e.queue) && NeverReopens(e, events)
    ensures Run(e, events).queue.accepted == e.queue.accepted && QueueQuiet(Run(e, events).queue)
    decreases |events|
  {
    if events != [] {
      QuietStep(e, events[0]);
      QuietUntilReopened(Step(e, events[0]), events[1..]);
    }
  }

  // ----------------------------------------------------------------- a run that opens again

  /** A request that asks for nothing: the sweep drops it whatever the configuration. */
  function Idle(ncr: Ncr): Ncr {
    ncr.(forward := false, reverse := false)
  }

  lemma IdleDropped(cfg: Config, ncr: Ncr)
    requires !ncr.forward && !ncr.reverse
    ensures MakePlan(cfg, ncr) == Drop
  {
  }

  /** Two waiting requests when a drain_first shutdown and a reconfiguration are asked for: the first
      turn stops the listener, and the next, with one request still waiting, replaces it and listens. */
  lemma {:induction false} TwoWaiting(maxQueue: nat, maxTransactions: nat, cfg: Config, ncr: Ncr) returns (e: Engine)
    requires 2 <= maxQueue && 1 <= maxTransactions
    ensures Reachable(e, maxQueue, maxTransactions, cfg)
    ensures e.phase.Top? && e.queue.state.Running? && ListenerInv(e.queue) && e.queue.max == maxQueue
    ensures e.shouldShutdown && e.shutdownType.DrainFirst? && e.reconf && e.cfg == cfg
    ensures e.updates.transactions == map[] && e.updates.max == maxTransactions
    ensures |e.queue.requests| == 2 && forall i :: 0 <= i < 2 ==> !e.queue.requests[i].forward && !e.queue.requests[i].reverse
  {
    var e0 := InitialEngine(maxQueue, maxTransactions, cfg);
    var e1, evs := Started(maxQueue, maxTransactions, cfg);
    var arrival := Receive(Received(Idle(ncr)), true);
    var e2 := Step(e1, arrival);
    evs := Append(e0, evs, e1, arrival);
    var e3 := Step(e2, arrival);
    evs := Append(e0, evs, e2, arrival);
    var e4 := Step(e3, ShutdownCommand(Some("drain_first")));
    evs := Append(e0, evs, e3, ShutdownCommand(Some("drain_first")));
    var e5 := Step(e4, Configure(true, false, cfg));
    evs := Append(e0, evs, e4, Configure(true, false, cfg));
    e := Step(e5, EndIo);
    evs := Append(e0, evs, e5, EndIo);
  }

  lemma SweepDropsFront(q: Queue, u: Updates, cfg: Config)
    requires q.requests != [] && !q.requests[0].forward && !q.requests[0].reverse
    requires u.transactions == map[] && 1 <= u.max
    ensures var t := Sweep(q, u, cfg, false);
            !t.threw && t.queue == q.(requests := q.requests[1..]) && t.updates.transactions == map[] && t.updates.max == u.max
  {
    assert Reap(u).transactions == map[];
    IdleDropped(cfg, q.requests[0]);
    assert RemoveAt(q.requests, 0) == q.requests[1..];
  }

  /** The listener is down, a shutdown and a reconfiguration are pending, and one request still waits. */
  lemma {:induction false} StoppedWithWork(maxQueue: nat, maxTransactions: nat, cfg: Config, ncr: Ncr) returns (e: Engine)
    requires 2 <= maxQueue && 1 <= maxTransactions
    ensures Reachable(e, maxQueue, maxTransactions, cfg)
    ensures e.phase.Top? && e.queue.state.Stopped? && ListenerInv(e.queue) && e.queue.max == maxQueue
    ensures e.shouldShutdown && Reopens(e)
    ensures e.updates.transactions == map[] && e.updates.max == maxTransactions
    ensures |e.queue.requests| == 1 && !e.queue.requests[0].forward && !e.queue.requests[0].reverse
  {
    var e0 := InitialEngine(maxQueue, maxTransactions, cfg);
    var e1 := TwoWaiting(maxQueue, maxTransactions, cfg, ncr);
    var evs :| e1 == Run(e0, evs);
    var turn := Turn(Opens, false);
    var e2 := Step(e1, turn);
    evs := Append(e0, evs, e1, turn);
    CheckQueueKeepsListener(e1, Opens);
    var c := CheckQueueStatus(e1, Opens);
    assert c.queue == e1.queue.(target := Stopped, state := Stopping, listener := Some(Listener(false, true, true)));
    SweepDropsFront(c.queue, c.updates, c.cfg);
    var e3 := Step(e2, Receive(Canceled, true));
    evs := Append(e0, evs, e2, Receive(Canceled, true));
    e := Step(e3, EndIo);
    evs := Append(e0, evs, e3, EndIo);
  }

  /** A shutdown does not stop the intake: a run from start-up reaches a state in which a shutdown is
      pending and the listener is down, and after which the loop listens again and accepts a request. */
  lemma ReopenIsReachable(maxQueue: nat, maxTransactions: nat, cfg: Config, ncr: Ncr) returns (e: Engine)
    requires 2 <= maxQueue && 1 <= maxTransactions
    ensures Reachable(e, maxQueue, maxTransactions, cfg) && e.shouldShutdown && e.queue.state.Stopped?
    ensures |Run(e, [Turn(Opens, false), Receive(Received(ncr), true)]).queue.accepted| == |e.queue.accepted| + 1
  {
    e := StoppedWithWork(maxQueue, maxTransactions, cfg, ncr);
    CheckQueueKeepsListener(e, Opens);
    var c := CheckQueueStatus(e, Opens);
    SweepDropsFront(c.queue, c.updates, c.cfg);
    ReopenAccepts(e, false, ncr);
    var two := [Turn(Opens, false), Receive(Received(ncr), true)];
    assert two[1..] == [Receive(Received(ncr), true)] && two[1..][1..] == [];
    assert Run(Step(e, two[0]), two[1..]) == Step(Step(e, two[0]), two[1]);
  }

  // ----------------------------------------------------------------- closed for good

  /** A shutdown is pending and only a command can make the loop accept a request again: the listener
      is down with nothing pending that opens it, or its stop has lost its completion. */
  ghost predicate ClosedForShutdown(e: Engine) {
    && e.shouldShutdown && ListenerInv(e.queue)
    && (|| e.queue.state.StoppedRecvError?
        || ((e.queue.state.NotInitted? || e.queue.state.Initted? || e.queue.state.Stopped?) && !e.reconf)
        || Wedged(e.queue))
  }

  lemma ClosedStep(e: Engine, ev: Event)
    requires ClosedForShutdown(e) && !ev.Configure? && !ev.ShutdownCommand?
    ensures ClosedForShutdown(Step(e, ev)) && Step(e, ev).queue.accepted == e.queue.accepted
  {
    if e.phase.Top? && ev.Turn? && !CanShutdown(e) {
      assert CheckQueueStatus(e, ev.opening) == e;
      SweepKeepsListener(e.queue, e.updates, e.cfg, ev.endsAtOnce);
    }
  }

  /** From there no request is accepted any more, for as long as no command arrives. */
  lemma {:induction false} ClosedAcceptsNothing(e: Engine, events: seq<Event>)
    requires ClosedForShutdown(e)
    requires forall i :: 0 <= i < |events| ==> !events[i].Configure? && !events[i].ShutdownCommand?
    ensures Run(e, events).queue.accepted == e.queue.accepted
    decreases |events|
  {
    if events != [] {
      ClosedStep(e, events[0]);
      ClosedAcceptsNothing(Step(e, events[0]), events[1..]);
    }
  }
}
