/** What the loop does, exactly: when it listens, what each completed receive leads to, how a
    reconfiguration takes effect, which configuration is in force, what each shutdown type waits for and
    how transactions come and go.
 */
module Operation {
  import opened Text
  import opened QueueMgr
  import opened UpdateMgr
  import opened Process
  import opened ProcessRuns

  // ----------------------------------------------------------------- receiving

  /** Where a completed receive leaves the queue manager.  While it listens: listening on, stopped as
      full by a request without room, or stopped by a receive error, also when the next receive cannot
      be started.  While it waits for a stop: stopped as asked for by the cancellation, and otherwise
      for the reason that came first, except that a request with room spends the completion. */
  function StateAfter(q: Queue, r: Receipt, nextOk: bool): MgrState {
    if r.RecvFailed? then StoppedRecvError
    else if r.Canceled? then (if q.state.Stopping? then Stopped else StoppedRecvError)
    else if |q.requests| >= q.max then StoppedQueueFull
    else if q.state.Stopping? || nextOk then q.state
    else StoppedRecvError
  }

  lemma {:induction false} ReceiveOutcome(q: Queue, r: Receipt, nextOk: bool)
    requires ListenerInv(q) && q.listener.Some? && q.listener.value.receiving
    ensures q.state.Running? || q.state.Stopping?
    ensures Deliver(q, r, nextOk).state == StateAfter(q, r, nextOk)
  {
    assert !q.state.Initted? && !IsStop(q.state);
  }

  // ----------------------------------------------------------------- listening

  /** The restart threshold is four fifths of the capacity, as long as the product fits. */
  lemma {:induction false} ThresholdIsFourFifths(n: nat, max: nat)
    requires max * QUEUE_RESTART_PERCENT < SIZE_MODULUS
    ensures n <= Threshold(max) <==> 5 * n <= 4 * max
  {
    assert max * QUEUE_RESTART_PERCENT % SIZE_MODULUS == max * QUEUE_RESTART_PERCENT;
  }

  /** A listener that is up stays up unless a reconfiguration or a shutdown is pending.  One that is
      down comes up, if it can be opened: after a receive error unless a shutdown is pending, after a
      stop as full once the queue is down to the threshold, and otherwise when a reconfiguration is
      pending. */
  predicate Listens(e: Engine, o: Opening) {
    match e.queue.state
    case Running => !e.reconf && !e.shouldShutdown
    case Stopping => false
    case StoppedRecvError => o.Opens? && !e.shouldShutdown
    case StoppedQueueFull => o.Opens? && |e.queue.requests| <= Threshold(e.queue.max)
    case _ => o.Opens? && e.reconf
  }

  lemma CheckListens(e: Engine, o: Opening)
    requires ListenerInv(e.queue)
    ensures CheckQueueStatus(e, o).queue.state.Running? <==> Listens(e, o)
  {
  }

  /** Exactly when a turn of the loop leaves the listener running. */
  lemma {:induction false} ListensExactly(e: Engine, o: Opening, endsAtOnce: bool)
    requires e.phase.Top? && ListenerInv(e.queue)
    ensures var e' := Step(e, Turn(o, endsAtOnce));
            !e'.phase.Exited? && e'.queue.state.Running? <==> !CanShutdown(e) && Listens(e, o)
  {
    if !CanShutdown(e) {
      CheckListens(e, o);
      CheckQueueKeepsListener(e, o);
      var e1 := CheckQueueStatus(e, o);
      SweepKeepsListener(e1.queue, e1.updates, e1.cfg, endsAtOnce);
    }
  }

  /** A running listener is stopped in one way: the receive outstanding is canceled and its completion
      awaited, with STOPPED as the state to come. */
  lemma {:induction false} StopBegins(e: Engine, o: Opening, endsAtOnce: bool)
    requires e.phase.Top? && ListenerInv(e.queue) && !CanShutdown(e)
    requires e.queue.state.Running? && (e.reconf || e.shouldShutdown)
    ensures var e' := Step(e, Turn(o, endsAtOnce));
            && e'.queue.state.Stopping? && Deliverable(e'.queue) && ListenerInv(e'.queue)
            && e'.reconf == e.reconf && e'.shouldShutdown == e.shouldShutdown && e'.cfg == e.cfg
  {
    CheckQueueKeepsListener(e, o);
    var e1 := CheckQueueStatus(e, o);
    SweepKeepsListener(e1.queue, e1.updates, e1.cfg, endsAtOnce);
  }

  /** A pending reconfiguration stays pending exactly until a turn replaces the listener, whether or
      not the new one can be opened. */
  lemma {:induction false} ReconfiguresOnce(e: Engine, o: Opening, endsAtOnce: bool)
    requires e.phase.Top? && !CanShutdown(e)
    ensures Step(e, Turn(o, endsAtOnce)).reconf
            <==> e.reconf && (|| e.queue.state.Running? || e.queue.state.Stopping? || e.queue.state.StoppedQueueFull?
                              || (e.queue.state.StoppedRecvError? && e.shouldShutdown))
  {
  }

  // ----------------------------------------------------------------- reconfiguring

  /** The turns and handlers by which a running server takes on a configuration. */
  function Takeover(cfg: Config, first: Opening, nextOk: bool, ends: bool, ends': bool): seq<Event> {
    [Configure(true, false, cfg), EndIo, Turn(first, ends), Receive(Canceled, nextOk), EndIo, Turn(Opens, ends')]
  }

  lemma SixSteps(e: Engine, evs: seq<Event>) returns (e1: Engine, e2: Engine, e3: Engine, e4: Engine, e5: Engine)
    requires |evs| == 6
    ensures e1 == Step(e, evs[0]) && e2 == Step(e1, evs[1]) && e3 == Step(e2, evs[2])
    ensures e4 == Step(e3, evs[3]) && e5 == Step(e4, evs[4]) && Run(e, evs) == Step(e5, evs[5])
  {
    e1 := Step(e, evs[0]);
    e2 := Step(e1, evs[1]);
    e3 := Step(e2, evs[2]);
    assert Run(e, evs) == Run(e1, evs[1..]) == Run(e2, evs[1..][1..]);
    var rest := evs[3..];
    assert evs[1..][1..][1..] == rest;
    assert Run(e2, evs[1..][1..]) == Run(e3, rest);
    e4 := Step(e3, rest[0]);
    e5 := Step(e4, rest[1]);
    assert Run(e3, rest) == Run(e4, rest[1..]) == Run(e5, rest[1..][1..]);
    assert rest[1..][1..] == [evs[5]];
    assert Run(Step(e5, evs[5]), [evs[5]][1..]) == Step(e5, evs[5]);
  }

  /** From a running listener with a reconfiguration pending to a stopped one. */
  lemma {:induction false} StopsForReconfiguration(e2: Engine, first: Opening, nextOk: bool, ends: bool) returns (e5: Engine)
    requires e2.phase.Top? && e2.queue.state.Running? && ListenerInv(e2.queue) && e2.reconf && !e2.shouldShutdown
    ensures e5 == Step(Step(Step(e2, Turn(first, ends)), Receive(Canceled, nextOk)), EndIo)
    ensures e5.phase.Failed? || (e5.phase.Top? && e5.queue.state.Stopped?)
    ensures !e5.phase.Failed? ==> ListenerInv(e5.queue) && e5.reconf && !e5.shouldShutdown && e5.cfg == e2.cfg
  {
    StopBegins(e2, first, ends);
    var e3 := Step(e2, Turn(first, ends));
    if e3.phase.Io? {
      ReceiveOutcome(e3.queue, Canceled, nextOk);
      DeliverKeeps(e3.queue, Canceled, nextOk);
    }
    e5 := Step(Step(e3, Receive(Canceled, nextOk)), EndIo);
  }

  /** From a stopped listener with a reconfiguration pending to a running one. */
  lemma {:induction false} RestartsForReconfiguration(e5: Engine, ends: bool)
    requires e5.phase.Top? && e5.queue.state.Stopped? && ListenerInv(e5.queue) && e5.reconf && !e5.shouldShutdown
    ensures var e' := Step(e5, Turn(Opens, ends));
            && (e'.phase.Io? || e'.phase.Failed?)
            && e'.queue.state.Running? && e'.cfg == e5.cfg && !e'.reconf
  {
    ListensExactly(e5, Opens, ends);
    ReconfiguresOnce(e5, Opens, ends);
  }

  /** A running server that accepts a configuration stops its listener, and once the cancellation is
      reported replaces it and listens under the new configuration, with nothing left pending.  Only a
      request that makes a sweep throw comes between. */
  lemma {:induction false} ReconfigurationTakesEffect(e: Engine, cfg: Config, first: Opening, nextOk: bool, ends: bool, ends': bool)
    requires e.phase.Io? && e.queue.state.Running? && ListenerInv(e.queue) && !e.shouldShutdown
    ensures var e' := Run(e, Takeover(cfg, first, nextOk, ends, ends'));
            e'.phase.Failed? || (e'.phase.Io? && e'.queue.state.Running? && e'.cfg == cfg && !e'.reconf)
  {
    var e1, e2, e3, e4, e5 := SixSteps(e, Takeover(cfg, first, nextOk, ends, ends'));
    assert e2 == e.(reconf := true, cfg := cfg, phase := Top);
    var e5' := StopsForReconfiguration(e2, first, nextOk, ends);
    if !e5.phase.Failed? { RestartsForReconfiguration(e5, ends'); }
  }

  /** What each configuration command does: one that is only checked changes nothing, a refused one
      cancels a reconfiguration that was still pending, and an accepted one asks for one. */
  lemma ConfigureOutcome(e: Engine, valid: bool, checkOnly: bool, newCfg: Config)
    requires e.phase.Io?
    ensures var e' := Step(e, Configure(valid, checkOnly, newCfg));
            && (e'.reconf <==> (checkOnly && e.reconf) || (!checkOnly && valid))
            && (e'.cfg == if valid && !checkOnly then newCfg else e.cfg)
            && e'.queue == e.queue && e'.updates == e.updates
            && e'.shouldShutdown == e.shouldShutdown && e'.shutdownType == e.shutdownType
  {
  }

  /** So an accepted configuration need not reach the listener: when a refused one follows before the
      loop turns, the new domains are in force and the old listener runs on with nothing pending. */
  lemma {:induction false} RefusalCancels(e: Engine, cfg: Config, other: Config, o: Opening, ends: bool)
    requires e.phase.Io? && e.queue.state.Running? && ListenerInv(e.queue) && !e.shouldShutdown
    ensures var e1 := Step(Step(Step(e, Configure(true, false, cfg)), Configure(false, false, other)), EndIo);
            var e' := Step(e1, Turn(o, ends));
            e'.cfg == cfg && !e'.reconf && e'.queue.listener == e.queue.listener && e'.queue.state.Running?
  {
    ConfigureOutcome(e, true, false, cfg);
    var e0 := Step(e, Configure(true, false, cfg));
    ConfigureOutcome(e0, false, false, other);
    var e1 := Step(Step(e0, Configure(false, false, other)), EndIo);
    assert CheckQueueStatus(e1, o) == e1;
    SweepKeepsListener(e1.queue, e1.updates, e1.cfg, ends);
  }

  predicate Accepted(ev: Event) {
    ev.Configure? && ev.valid && !ev.checkOnly
  }

  /** Nothing but an accepted configuration changes the configuration in force. */
  lemma {:induction false} ConfigurationKept(e: Engine, events: seq<Event>)
    requires forall i :: 0 <= i < |events| ==> !Accepted(events[i])
    ensures Run(e, events).cfg == e.cfg
    decreases |events|
  {
    if events != [] { ConfigurationKept(Step(e, events[0]), events[1..]); }
  }

  /** In every run, the configuration in force is the last one accepted. */
  lemma {:induction false} LastConfigurationInForce(e: Engine, events: seq<Event>, i: nat)
    requires i < |events| && Accepted(events[i]) && Run(e, events[..i]).phase.Io?
    requires forall j :: i < j < |events| ==> !Accepted(events[j])
    ensures Run(e, events).cfg == events[i].newCfg
  {
    var e1 := Run(e, events[..i]);
    var rest := events[i..];
    RunConcat(e, events[..i], rest);
    assert events[..i] + rest == events;
    assert Run(e1, rest) == Run(Step(e1, rest[0]), rest[1..]);
    ConfigurationKept(Step(e1, rest[0]), rest[1..]);
  }

  // ----------------------------------------------------------------- shutting down

  /** What a shutdown command waits for before the loop may return, given its argument. */
  predicate MayReturn(e: Engine, arg: Option<string>) {
    || arg == Some("now")
    || (&& (arg == None || arg == Some("normal") || (arg == Some("drain_first") && e.queue.requests == []))
        && !e.queue.state.Running? && !e.queue.state.Stopping? && e.updates.transactions == map[])
  }

  /** After a shutdown command the next turn returns exactly when the command's type has nothing to
      wait for: now never waits, normal waits for the listener and the transactions under way, and
      drain_first also for the requests in the queue. */
  lemma {:induction false} ReturnsByType(e: Engine, arg: Option<string>, o: Opening, endsAtOnce: bool)
    requires e.phase.Io?
    ensures var e1 := Step(Step(e, ShutdownCommand(arg)), EndIo);
            e1.phase.Top? && (Step(e1, Turn(o, endsAtOnce)).phase.Exited? <==> MayReturn(e, arg))
  {
    var e1 := Step(Step(e, ShutdownCommand(arg)), EndIo);
    assert |e.updates.transactions| == 0 <==> e.updates.transactions == map[];
    assert e1.queue == e.queue && e1.updates == e.updates;
  }

  /** Waiting for IO comes back to the top of the loop exactly when a handler has run; an IO service
      that has stopped, so that none did, ends the loop with an exception. */
  lemma {:induction false} WaitEnds(e: Engine, handlers: seq<Event>)
    requires e.phase.Io? && forall i :: 0 <= i < |handlers| ==> !handlers[i].Turn? && !handlers[i].EndIo?
    ensures var e' := Run(e, handlers);
            && e'.phase == Io(e.phase.handled + |handlers|)
            && Step(e', EndIo).phase == if e.phase.handled + |handlers| > 0 then Top else Failed
    decreases |handlers|
  {
    if handlers != [] { WaitEnds(Step(e, handlers[0]), handlers[1..]); }
  }

  // ----------------------------------------------------------------- transactions

  lemma TakeKeepsOthers(q: Queue, u: Updates, cfg: Config, i: nat, endsAtOnce: bool, k: string)
    requires i < |q.requests| && q.requests[i].dhcid !in u.transactions
    requires k in u.transactions
    ensures var s := Take(q, u, cfg, i, endsAtOnce);
            k in s.updates.transactions && s.updates.transactions[k] == u.transactions[k]
  {
  }

  /** A transaction under way stays as it was started, with its request and its domains, and ends only
      by its own completion. */
  lemma {:induction false} UnderWayStays(e: Engine, ev: Event, k: string)
    requires k in e.updates.transactions && !e.updates.transactions[k].done
    ensures var ts, ts' := e.updates.transactions, Step(e, ev).updates.transactions;
            k in ts' && (ts'[k] == ts[k] || (ev == Complete(k) && ts'[k] == ts[k].(done := true)))
  {
    if e.phase.Top? && ev.Turn? && !CanShutdown(e) {
      CheckQueueEffect(e, ev.opening);
      var e1 := CheckQueueStatus(e, ev.opening);
      var r := Reap(e1.updates);
      assert k in r.transactions && r.transactions[k] == e.updates.transactions[k];
      var i := FirstEligible(e1.queue.requests, r.transactions.Keys);
      if i < |e1.queue.requests| && |r.transactions| < r.max {
        TakeKeepsOthers(e1.queue, r, e1.cfg, i, ev.endsAtOnce, k);
      }
    }
  }

  /** Completing a transaction ends it, and the next turn that is not the last files its request as
      finished. */
  lemma {:induction false} EndedIsFinished(e: Engine, o: Opening, endsAtOnce: bool, k: string)
    requires e.phase.Io? && k in e.updates.transactions
    ensures var e1 := Step(Step(e, Complete(k)), EndIo);
            && e1.phase.Top? && k in e1.updates.transactions && e1.updates.transactions[k].done
            && (!CanShutdown(e1) ==> e.updates.transactions[k].request.id in Step(e1, Turn(o, endsAtOnce)).updates.finished)
  {
    var e1 := Step(Step(e, Complete(k)), EndIo);
    if !CanShutdown(e1) {
      CheckQueueEffect(e1, o);
      var e2 := CheckQueueStatus(e1, o);
      assert e2.updates.transactions[k].request.id in DoneIds(e2.updates.transactions);
      SweepFinishes(e2.queue, e2.updates, e2.cfg, endsAtOnce);
    }
  }

  lemma SweepFinishes(q: Queue, u: Updates, cfg: Config, endsAtOnce: bool)
    ensures Sweep(q, u, cfg, endsAtOnce).updates.finished == u.finished + DoneIds(u.transactions)
  {
  }
}
