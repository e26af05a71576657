/** The request queue of DHCP-DDNS and the listener that fills it: d2_queue_mgr.cc on top of
    `NameChangeListener` of ncr_io.cc.

    The functions describe one call each on a value; class `D2QueueMgr` performs them in place.
 */
module QueueMgr {
  import opened Text
  import opened ReverseNames

  /** A NameChangeRequest.  `id` stands for the identity of the request object: requests are handled
      by pointer, so two requests with equal contents are still two.  `address` is absent when the
      text of the lease address does not parse. */
  datatype Ncr = Ncr(id: nat, dhcid: string, fqdn: string, address: Option<Address>,
                     forward: bool, reverse: bool, isAdd: bool)

  datatype MgrState = NotInitted | Initted | Running | Stopping
                    | StoppedQueueFull | StoppedRecvError | Stopped

  predicate IsStop(s: MgrState) {
    s.Stopped? || s.StoppedQueueFull? || s.StoppedRecvError?
  }

  /** `listening` and `ioPending` are the listener's own flags; `receiving` says whether an
      asynchronous receive is really outstanding, so that its completion will be delivered. */
  datatype Listener = Listener(listening: bool, ioPending: bool, receiving: bool)

  /** The manager, with the history of the requests it has accepted. */
  datatype Queue = Queue(state: MgrState, target: MgrState, listener: Option<Listener>,
                         requests: seq<Ncr>, max: nat, accepted: seq<Ncr>)

  /** The state a call leaves behind and whether it threw. */
  datatype Done = Done(queue: Queue, threw: bool)

  /** What a completed receive reports. */
  datatype Receipt = Received(ncr: Ncr) | Canceled | RecvFailed

  /** How opening the listener goes. */
  datatype Opening = Opens | OpenFails | ReceiveFails

  // ----------------------------------------------------------------- the calls

  function NewQueue(max: nat): Queue {
    Queue(NotInitted, NotInitted, None, [], max, [])
  }

  function StopListening(q: Queue, target: MgrState): Done {
    if q.listener.None? then Done(q, false)
    else if !IsStop(target) then Done(q, true)
    else
      var l := q.listener.value.(listening := false);
      Done(q.(target := target, listener := Some(l), state := if l.ioPending then Stopping else target), false)
  }

  /** The receive callback, `operator()`. */
  function OnReceive(q: Queue, r: Receipt): Queue {
    match r
    case Received(ncr) =>
      if |q.requests| < q.max then q.(requests := q.requests + [ncr], accepted := q.accepted + [ncr])
      else StopListening(q, StoppedQueueFull).queue
    case Canceled =>
      if q.state.Stopping? then q.(state := q.target) else StopListening(q, StoppedRecvError).queue
    case RecvFailed =>
      StopListening(q, StoppedRecvError).queue
  }

  /** `invokeRecvHandler`: run the callback, then ask for the next request if still listening. */
  function Deliver(q: Queue, r: Receipt, nextOk: bool): Queue {
    if q.listener.None? then q else
      var q1 := OnReceive(q.(listener := Some(q.listener.value.(ioPending := false, receiving := false))), r);
      if q1.listener.None? || !q1.listener.value.listening then q1
      else if nextOk then q1.(listener := Some(q1.listener.value.(ioPending := true, receiving := true)))
      else OnReceive(q1.(listener := Some(q1.listener.value.(ioPending := false))), RecvFailed)
  }

  function InitListener(q: Queue): Done {
    if q.listener.Some? then Done(q, true)
    else Done(q.(listener := Some(Listener(false, false, false)), state := Initted), false)
  }

  function StartListening(q: Queue, o: Opening): Done {
    if q.listener.None? || q.state.Running? || q.listener.value.listening then Done(q, true)
    else match o
      case Opens => Done(q.(listener := Some(Listener(true, true, true)), state := Running), false)
      case OpenFails => Done(q, true)
      case ReceiveFails => Done(q.(listener := Some(q.listener.value.(ioPending := true))), true)
  }

  function RemoveListener(q: Queue): Done {
    if q.state.Running? then Done(q, true) else Done(q.(listener := None, state := NotInitted), false)
  }

  function RemoveAt(requests: seq<Ncr>, i: nat): seq<Ncr>
    requires i < |requests|
  {
    requests[..i] + requests[i + 1..]
  }

  // ----------------------------------------------------------------- what every call keeps

  /** The states of the manager against the state of its listener. */
  ghost predicate ListenerInv(q: Queue) {
    && (q.listener.None? <==> q.state.NotInitted?)
    && (q.state.Running? ==> q.listener.value == Listener(true, true, true))
    && (q.state.Stopping? ==> !q.listener.value.listening && q.target.Stopped?
                              && (q.listener.value.receiving <==> q.listener.value.ioPending))
    && (q.state.Initted? || IsStop(q.state) ==> !q.listener.value.listening && !q.listener.value.receiving)
    && |q.requests| <= q.max
    && 1 <= q.max
  }

  /** A stop was asked for, its completion is gone, and nobody will ever report it. */
  ghost predicate Wedged(q: Queue) {
    q.state.Stopping? && q.listener.Some? && !q.listener.value.receiving
  }

  /** Delivering the completion of an outstanding receive keeps the invariant. */
  lemma DeliverKeeps(q: Queue, r: Receipt, nextOk: bool)
    requires ListenerInv(q) && q.listener.Some? && q.listener.value.receiving
    ensures ListenerInv(Deliver(q, r, nextOk))
  {
  }

  /** A requested stop completes exactly when the receive outstanding at that moment does not end
      by handing over a request there is room for; that one outcome leaves the manager waiting for
      a completion that has already been spent. */
  lemma StopCompletes(q: Queue, r: Receipt, nextOk: bool)
    requires ListenerInv(q) && q.state.Stopping? && q.listener.value.receiving
    ensures var q' := Deliver(q, r, nextOk);
            if r.Received? && |q.requests| < q.max then Wedged(q') else IsStop(q'.state)
  {
  }

  /** The queue is stopped as full only by a request that found no room. */
  lemma StopsFullOnlyWhenFull(q: Queue, r: Receipt, nextOk: bool)
    requires ListenerInv(q) && q.listener.Some? && q.listener.value.receiving
    ensures var q' := Deliver(q, r, nextOk);
            q'.state.StoppedQueueFull? ==> r.Received? && |q'.requests| == q'.max && q'.accepted == q.accepted
  {
  }

  /** When the calls throw, in terms of the manager's state alone, and that none which throws changes
      the state, the queue or its history. */
  lemma CallsThrowExactly(q: Queue, target: MgrState, o: Opening)
    requires ListenerInv(q)
    ensures InitListener(q).threw <==> !q.state.NotInitted?
    ensures RemoveListener(q).threw <==> q.state.Running?
    ensures StopListening(q, target).threw <==> !q.state.NotInitted? && !IsStop(target)
    ensures StartListening(q, o).threw <==> q.state.NotInitted? || q.state.Running? || !o.Opens?
    ensures forall d :: d in {InitListener(q), RemoveListener(q), StopListening(q, target), StartListening(q, o)} && d.threw ==>
              d.queue.state == q.state && d.queue.requests == q.requests && d.queue.accepted == q.accepted
  {
  }

  // ----------------------------------------------------------------- the class

  /** `D2QueueMgr`, updated in place. */
  class D2QueueMgr {
    var mgrState: MgrState
    var targetStopState: MgrState
    var listener: Option<Listener>
    var ncrQueue: seq<Ncr>
    var maxQueueSize: nat
    /** Every request ever enqueued; the source keeps no such log. */
    var accepted: seq<Ncr>

    function Model(): Queue
      reads this
    {
      Queue(mgrState, targetStopState, listener, ncrQueue, maxQueueSize, accepted)
    }

    /** The source throws on a maximum of zero. */
    constructor (max: nat)
      requires 1 <= max
      ensures Model() == NewQueue(max) && ListenerInv(Model())
    {
      mgrState, targetStopState, listener, ncrQueue, maxQueueSize := NotInitted, NotInitted, None, [], max;
      accepted := [];
    }

    method StopListener(target: MgrState) returns (threw: bool)
      modifies this
      ensures Done(Model(), threw) == StopListening(old(Model()), target)
    {
      threw := false;
      if listener.Some? {
        if target != Stopped && target != StoppedQueueFull && target != StoppedRecvError {
          return true;
        }
        targetStopState := target;
        listener := Some(listener.value.(listening := false));
        if listener.value.ioPending {
          mgrState := Stopping;
        } else {
          mgrState := targetStopState;
        }
      }
    }

    method OnReceiveCallback(r: Receipt)
      modifies this
      ensures Model() == OnReceive(old(Model()), r)
    {
      match r
      case Received(ncr) =>
        if |ncrQueue| < maxQueueSize {
          ncrQueue := ncrQueue + [ncr];
          accepted := accepted + [ncr];
          return;
        }
        var _ := StopListener(StoppedQueueFull);
      case Canceled =>
        if mgrState == Stopping {
          mgrState := targetStopState;
        } else {
          var _ := StopListener(StoppedRecvError);
        }
      case RecvFailed =>
        var _ := StopListener(StoppedRecvError);
    }

    method InvokeRecvHandler(r: Receipt, nextOk: bool)
      modifies this
      ensures Model() == Deliver(old(Model()), r, nextOk)
    {
      if listener.None? { return; }
      listener := Some(listener.value.(ioPending := false, receiving := false));
      OnReceiveCallback(r);
      if listener.Some? && listener.value.listening {
        if nextOk {
          listener := Some(listener.value.(ioPending := true, receiving := true));
        } else {
          listener := Some(listener.value.(ioPending := false));
          OnReceiveCallback(RecvFailed);
        }
      }
    }

    method InitUdpListener() returns (threw: bool)
      modifies this
      ensures Done(Model(), threw) == InitListener(old(Model()))
    {
      if listener.Some? { return true; }
      listener := Some(Listener(false, false, false));
      mgrState := Initted;
      threw := false;
    }

    method Start(o: Opening) returns (threw: bool)
      modifies this
      ensures Done(Model(), threw) == StartListening(old(Model()), o)
    {
      if listener.None? { return true; }
      if mgrState == Running { return true; }
      if listener.value.listening { return true; }
      match o
      case Opens =>
        listener := Some(Listener(true, true, true));
        mgrState := Running;
        threw := false;
      case OpenFails =>
        listener := Some(listener.value.(listening := false));
        threw := true;
      case ReceiveFails =>
        listener := Some(listener.value.(listening := false, ioPending := true));
        threw := true;
    }

    method Remove() returns (threw: bool)
      modifies this
      ensures Done(Model(), threw) == RemoveListener(old(Model()))
    {
      if mgrState == Running { return true; }
      listener := None;
      mgrState := NotInitted;
      threw := false;
    }

    method PeekAt(index: nat) returns (r: Result<Ncr>)
      ensures r == if index < |ncrQueue| then Ok(ncrQueue[index]) else Threw
    {
      if index >= |ncrQueue| { return Threw; }
      r := Ok(ncrQueue[index]);
    }

    method DequeueAt(index: nat) returns (threw: bool)
      modifies this
      ensures threw <==> index >= |old(ncrQueue)|
      ensures Model() == if threw then old(Model())
                         else old(Model()).(requests := RemoveAt(old(ncrQueue), index))
    {
      if index >= |ncrQueue| { return true; }
      ncrQueue := ncrQueue[..index] + ncrQueue[index + 1..];
      threw := false;
    }

    /** A limit is accepted exactly when it is positive and the queue fits under it. */
    method SetMaxQueueSize(max: nat) returns (threw: bool)
      modifies this
      ensures threw <==> max < 1 || max < |old(ncrQueue)|
      ensures Model() == if threw then old(Model()) else old(Model()).(max := max)
      ensures old(ListenerInv(Model())) ==> ListenerInv(Model())
    {
      if max < 1 { return true; }
      if max < |ncrQueue| { return true; }
      maxQueueSize := max;
      threw := false;
    }
  }
}
