/** The event loop of DHCP-DDNS: d2_process.cc driving the queue manager and the update manager.

    `Engine` is the whole process and `Step` one thing that can happen to it: the loop's own turn,
    or one handler run by the IO service while the loop waits.  A run is any sequence of events.
 */
module Process {
  import opened Text
  import opened QueueMgr
  import opened UpdateMgr

  const QUEUE_RESTART_PERCENT := 80

  /** `size_t` arithmetic wraps around. */
  const SIZE_MODULUS := 0x1_0000_0000_0000_0000

  datatype ShutdownType = Normal | DrainFirst | Now

  /** Where the loop is: about to test `canShutdown`, waiting in `runIO`, returned, or thrown out. */
  datatype Phase = Top | Io(handled: nat) | Exited | Failed

  datatype Engine = Engine(queue: Queue, updates: Updates, cfg: Config,
                           reconf: bool, shouldShutdown: bool, shutdownType: ShutdownType, phase: Phase)

  datatype Event =
    | Turn(opening: Opening, endsAtOnce: bool)
    | Receive(receipt: Receipt, nextOk: bool)
    | Complete(dhcid: string)
    | ShutdownCommand(arg: Option<string>)
    | Configure(valid: bool, checkOnly: bool, newCfg: Config)
    | EndIo

  // ----------------------------------------------------------------- the operations

  function InitialEngine(maxQueue: nat, maxTransactions: nat, cfg: Config): Engine {
    Engine(NewQueue(maxQueue), Updates(map[], maxTransactions, [], {}, {}), cfg, false, false, Normal, Top)
  }

  predicate QueueQuiet(q: Queue) {
    !q.state.Running? && !q.state.Stopping?
  }

  predicate CanShutdown(e: Engine) {
    e.shouldShutdown &&
    match e.shutdownType
    case Normal => QueueQuiet(e.queue) && |e.updates.transactions| == 0
    case DrainFirst => QueueQuiet(e.queue) && |e.queue.requests| == 0 && |e.updates.transactions| == 0
    case Now => true
  }

  /** Queue size at which a queue that was stopped as full listens again. */
  function Threshold(max: nat): nat {
    max * QUEUE_RESTART_PERCENT % SIZE_MODULUS / 100
  }

  /** `reconfigureQueueMgr`: each call is skipped once an earlier one threw. */
  function Reconfigure(q: Queue, o: Opening): Queue {
    var d := RemoveListener(q);
    if d.threw then d.queue else
      var d := InitListener(d.queue);
      if d.threw then d.queue else StartListening(d.queue, o).queue
  }

  function CheckQueueStatus(e: Engine, o: Opening): Engine {
    match e.queue.state
    case Running =>
      if e.reconf || e.shouldShutdown then e.(queue := StopListening(e.queue, Stopped).queue) else e
    case StoppedQueueFull =>
      if |e.queue.requests| <= Threshold(e.queue.max) then e.(queue := StartListening(e.queue, o).queue) else e
    case StoppedRecvError =>
      if !e.shouldShutdown then e.(reconf := false, queue := Reconfigure(e.queue, o)) else e
    case Stopping => e
    case _ =>
      if e.reconf then e.(reconf := false, queue := Reconfigure(e.queue, o)) else e
  }

  function Shutdown(e: Engine, arg: Option<string>): Engine {
    match arg
    case None => e.(shutdownType := Normal, shouldShutdown := true)
    case Some(t) =>
      if t == "normal" then e.(shutdownType := Normal, shouldShutdown := true)
      else if t == "drain_first" then e.(shutdownType := DrainFirst, shouldShutdown := true)
      else if t == "now" then e.(shutdownType := Now, shouldShutdown := true)
      else e.(shutdownType := Normal, shouldShutdown := false)
  }

  function Reconfigured(e: Engine, valid: bool, checkOnly: bool, newCfg: Config): Engine {
    if checkOnly then e
    else if !valid then e.(reconf := false)
    else e.(reconf := true, cfg := newCfg)
  }

  /** One pass of the loop up to `runIO`. */
  function LoopTurn(e: Engine, o: Opening, endsAtOnce: bool): Engine {
    if CanShutdown(e) then e.(phase := Exited) else
      var e1 := CheckQueueStatus(e, o);
      var s := Sweep(e1.queue, e1.updates, e1.cfg, endsAtOnce);
      e1.(queue := s.queue, updates := s.updates, phase := if s.threw then Failed else Io(0))
  }

  /** The state model of the client's transaction ends. */
  function Ended(u: Updates, dhcid: string): Updates {
    if dhcid in u.transactions
    then u.(transactions := u.transactions[dhcid := u.transactions[dhcid].(done := true)])
    else u
  }

  predicate Deliverable(q: Queue) {
    q.listener.Some? && q.listener.value.receiving
  }

  /** A received request is a new object. */
  function Fresh(r: Receipt, n: nat): Receipt {
    if r.Received? then Received(r.ncr.(id := n)) else r
  }

  /** A handler run by the IO service.  `Receive` happens only to an outstanding receive. */
  function Handle(e: Engine, ev: Event): Engine {
    match ev
    case Receive(r, nextOk) =>
      if Deliverable(e.queue) then e.(queue := Deliver(e.queue, Fresh(r, |e.queue.accepted|), nextOk)) else e
    case Complete(d) => e.(updates := Ended(e.updates, d))
    case ShutdownCommand(a) => Shutdown(e, a)
    case Configure(v, c, n) => Reconfigured(e, v, c, n)
    case _ => e
  }

  function Step(e: Engine, ev: Event): Engine {
    match e.phase
    case Top => if ev.Turn? then LoopTurn(e, ev.opening, ev.endsAtOnce) else e
    case Io(n) =>
      if ev.Turn? then e
      else if ev.EndIo? then e.(phase := if n == 0 then Failed else Top)
      else Handle(e, ev).(phase := Io(n + 1))
    case _ => e
  }

  function Run(e: Engine, events: seq<Event>): Engine
    decreases |events|
  {
    if events == [] then e else Run(Step(e, events[0]), events[1..])
  }

  // ----------------------------------------------------------------- the books

  /** The requests of one client, in order. */
  function Of(s: seq<Ncr>, dhcid: string): seq<Ncr> {
    if s == [] then [] else
      Of(s[..|s| - 1], dhcid) + if s[|s| - 1].dhcid == dhcid then [s[|s| - 1]] else []
  }

  function QueuedIds(requests: seq<Ncr>): set<nat> {
    set r | r in requests :: r.id
  }

  function FlightIds(ts: map<string, Transaction>): set<nat> {
    set k | k in ts :: ts[k].request.id
  }

  function UpTo(n: nat): (r: set<nat>)
    ensures forall i :: i in r <==> 0 <= i < n
  {
    if n == 0 then {} else UpTo(n - 1) + {n - 1}
  }

  /** A request is the accepted request of its number. */
  predicate Known(accepted: seq<Ncr>, r: Ncr) {
    r.id < |accepted| && accepted[r.id] == r
  }

  ghost predicate QueueBooks(q: Queue) {
    && (forall i :: 0 <= i < |q.accepted| ==> q.accepted[i].id == i)
    && (forall i :: 0 <= i < |q.requests| ==> Known(q.accepted, q.requests[i]))
    && (forall i, j :: 0 <= i < j < |q.requests| ==> q.requests[i].id < q.requests[j].id)
  }

  ghost predicate TransactionBooks(q: Queue, u: Updates) {
    && (forall k :: k in u.transactions ==>
          u.transactions[k].request.dhcid == k && Known(q.accepted, u.transactions[k].request))
    && |u.transactions| <= u.max && 1 <= u.max
  }

  /** Every accepted request is queued, in flight, dropped or finished, and only one of these. */
  ghost predicate Partition(q: Queue, u: Updates) {
    var queued, flight := QueuedIds(q.requests), FlightIds(u.transactions);
    && queued !! flight && queued !! u.dropped && queued !! u.finished
    && flight !! u.dropped && flight !! u.finished && u.dropped !! u.finished
    && queued + flight + u.dropped + u.finished == UpTo(|q.accepted|)
  }

  /** Client by client, what was taken followed by what still waits is what arrived, in order. */
  ghost predicate ClientOrder(q: Queue, u: Updates) {
    && (forall d :: Of(u.taken, d) + Of(q.requests, d) == Of(q.accepted, d))
    && |u.taken| + |q.requests| == |q.accepted|
  }

  ghost predicate Books(q: Queue, u: Updates) {
    QueueBooks(q) && TransactionBooks(q, u) && Partition(q, u) && ClientOrder(q, u)
  }

  ghost predicate Inv(e: Engine) {
    e.phase.Failed? || (ListenerInv(e.queue) && Books(e.queue, e.updates))
  }

  // ----------------------------------------------------------------- a request arrives

  lemma OfAppend(s: seq<Ncr>, x: Ncr, d: string)
    ensures Of(s + [x], d) == Of(s, d) + if x.dhcid == d then [x] else []
  {
    assert (s + [x])[..|s|] == s;
  }

  /** What a delivery does to the books: nothing, or one request at the end of queue and history. */
  lemma DeliverEffect(q: Queue, r: Receipt, nextOk: bool)
    ensures var q' := Deliver(q, r, nextOk);
            && q'.max == q.max
            && if r.Received? && q.listener.Some? && |q.requests| < q.max
               then q'.requests == q.requests + [r.ncr] && q'.accepted == q.accepted + [r.ncr]
               else q'.requests == q.requests && q'.accepted == q.accepted
  {
  }

  lemma {:induction false} ArrivalKeepsSets(q: Queue, u: Updates, n: Ncr, q': Queue)
    requires QueueBooks(q) && Partition(q, u) && n.id == |q.accepted|
    requires q'.requests == q.requests + [n] && q'.accepted == q.accepted + [n]
    ensures QueueBooks(q') && Partition(q', u)
  {
    assert QueuedIds(q'.requests) == QueuedIds(q.requests) + {n.id} by {
      assert n in q'.requests;
      assert forall r :: r in q.requests ==> r in q'.requests;
    }
    assert UpTo(|q'.accepted|) == UpTo(|q.accepted|) + {n.id};
    assert n.id !in UpTo(|q.accepted|);
  }

  lemma {:induction false} ArrivalKeepsBooks(q: Queue, u: Updates, n: Ncr, q': Queue)
    requires Books(q, u) && n.id == |q.accepted|
    requires q'.requests == q.requests + [n] && q'.accepted == q.accepted + [n]
    ensures Books(q', u)
  {
    ArrivalKeepsSets(q, u, n, q');
    forall d ensures Of(u.taken, d) + Of(q'.requests, d) == Of(q'.accepted, d) {
      OfAppend(q.requests, n, d);
      OfAppend(q.accepted, n, d);
      assert Of(u.taken, d) + Of(q.requests, d) == Of(q.accepted, d);
    }
  }

  // ----------------------------------------------------------------- transactions end and are reaped

  lemma EndedSameRequests(u: Updates, d: string)
    ensures var u' := Ended(u, d);
            && u'.transactions.Keys == u.transactions.Keys
            && (forall k :: k in u.transactions ==> u'.transactions[k].request == u.transactions[k].request)
            && |u'.transactions| == |u.transactions|
            && u' == u.(transactions := u'.transactions)
  {
    var u' := Ended(u, d);
    assert u'.transactions.Keys == u.transactions.Keys;
    assert |u'.transactions| == |u'.transactions.Keys| && |u.transactions| == |u.transactions.Keys|;
  }

  lemma SameFlight(ts: map<string, Transaction>, ts': map<string, Transaction>)
    requires ts.Keys == ts'.Keys && forall k :: k in ts ==> ts'[k].request == ts[k].request
    ensures FlightIds(ts') == FlightIds(ts)
  {
    forall id | id in FlightIds(ts) ensures id in FlightIds(ts') {
      var k :| k in ts && ts[k].request.id == id;
      assert ts'[k].request.id == id;
    }
  }

  lemma EndedKeepsBooks(q: Queue, u: Updates, d: string)
    requires Books(q, u)
    ensures Books(q, Ended(u, d))
  {
    EndedSameRequests(u, d);
    SameFlight(u.transactions, Ended(u, d).transactions);
  }

  lemma ReapSplitsFlight(q: Queue, u: Updates)
    requires TransactionBooks(q, u)
    ensures var r := Reap(u);
            && FlightIds(r.transactions) + DoneIds(u.transactions) == FlightIds(u.transactions)
            && FlightIds(r.transactions) !! DoneIds(u.transactions)
            && |r.transactions| <= |u.transactions|
  {
    var r := Reap(u);
    assert r.transactions.Keys <= u.transactions.Keys;
    SubsetSize(r.transactions.Keys, u.transactions.Keys);
    forall id | id in FlightIds(u.transactions) ensures id in FlightIds(r.transactions) + DoneIds(u.transactions) {
      var k :| k in u.transactions && u.transactions[k].request.id == id;
      assert !u.transactions[k].done ==> k in r.transactions;
    }
  }

  lemma ReapKeepsBooks(q: Queue, u: Updates)
    requires Books(q, u)
    ensures Books(q, Reap(u))
  {
    ReapSplitsFlight(q, u);
  }

  // ----------------------------------------------------------------- a request is taken

  lemma {:induction false} OfConcat(a: seq<Ncr>, b: seq<Ncr>, d: string)
    ensures Of(a + b, d) == Of(a, d) + Of(b, d)
    decreases |b|
  {
    if b == [] {
      assert a + b == a;
    } else {
      var front, last := b[..|b| - 1], b[|b| - 1];
      assert a + b == (a + front) + [last];
      OfAppend(a + front, last, d);
      OfConcat(a, front, d);
      assert Of(b, d) == Of(front, d) + if last.dhcid == d then [last] else [];
    }
  }

  lemma {:induction false} OfNone(s: seq<Ncr>, d: string)
    requires forall i :: 0 <= i < |s| ==> s[i].dhcid != d
    ensures Of(s, d) == []
  {
    if s != [] { OfNone(s[..|s| - 1], d); }
  }

  /** Taking the first request of a client moves that client's first waiting request to the end of
      what was taken, and leaves every other client's order alone. */
  lemma TakeKeepsOrder(taken: seq<Ncr>, requests: seq<Ncr>, i: nat, d: string)
    requires i < |requests|
    requires forall k :: 0 <= k < i ==> requests[k].dhcid != requests[i].dhcid
    ensures Of(taken + [requests[i]], d) + Of(RemoveAt(requests, i), d) == Of(taken, d) + Of(requests, d)
  {
    var x := if requests[i].dhcid == d then [requests[i]] else [];
    var t, pre, post := Of(taken, d), Of(requests[..i], d), Of(requests[i + 1..], d);
    assert Of(taken + [requests[i]], d) == t + x by { OfAppend(taken, requests[i], d); }
    assert Of(RemoveAt(requests, i), d) == pre + post by { OfConcat(requests[..i], requests[i + 1..], d); }
    assert Of(requests, d) == pre + x + post by { OfSplit(requests, i, d); }
    assert pre == [] || x == [] by { if d == requests[i].dhcid { OfNone(requests[..i], d); } }
    MoveAcross(t, x, pre, post);
  }

  lemma MoveAcross<T>(t: seq<T>, x: seq<T>, pre: seq<T>, post: seq<T>)
    requires pre == [] || x == []
    ensures (t + x) + (pre + post) == t + (pre + x + post)
  {
  }

  lemma OfSplit(s: seq<Ncr>, i: nat, d: string)
    requires i < |s|
    ensures Of(s, d) == Of(s[..i], d) + (if s[i].dhcid == d then [s[i]] else []) + Of(s[i + 1..], d)
  {
    assert s == (s[..i] + [s[i]]) + s[i + 1..];
    OfConcat(s[..i] + [s[i]], s[i + 1..], d);
    OfAppend(s[..i], s[i], d);
  }

  lemma TakeSplitsQueue(q: Queue, i: nat)
    requires QueueBooks(q) && i < |q.requests|
    ensures var rest := RemoveAt(q.requests, i);
            && QueuedIds(q.requests) == QueuedIds(rest) + {q.requests[i].id}
            && q.requests[i].id !in QueuedIds(rest)
            && (forall k :: 0 <= k < |rest| ==> rest[k] == q.requests[if k < i then k else k + 1])
  {
    var rest, x := RemoveAt(q.requests, i), q.requests[i];
    assert forall k :: 0 <= k < |rest| ==> rest[k] == q.requests[if k < i then k else k + 1];
    forall r | r in q.requests ensures r in rest || r == x {
      var k :| 0 <= k < |q.requests| && q.requests[k] == r;
      if k < i { assert rest[k] == r; } else if k > i { assert rest[k - 1] == r; }
    }
    assert forall r :: r in rest ==> r in q.requests && r.id != x.id;
  }

  lemma TakeKeepsQueueBooks(q: Queue, i: nat)
    requires QueueBooks(q) && i < |q.requests|
    ensures QueueBooks(q.(requests := RemoveAt(q.requests, i)))
  {
    TakeSplitsQueue(q, i);
  }

  lemma {:induction false} StartAddsFlight(ts: map<string, Transaction>, d: string, t: Transaction)
    requires d !in ts
    ensures FlightIds(ts[d := t]) == FlightIds(ts) + {t.request.id}
    ensures |ts[d := t]| == |ts| + 1
  {
    var ts' := ts[d := t];
    assert ts'.Keys == ts.Keys + {d};
    forall id | id in FlightIds(ts) + {t.request.id} ensures id in FlightIds(ts') {
      if id == t.request.id {
        assert ts'[d].request.id == id;
      } else {
        var k :| k in ts && ts[k].request.id == id;
        assert ts'[k].request.id == id;
      }
    }
  }

  /** Taking an eligible request below the limit keeps the books, unless it throws. */
  lemma {:induction false} TakeKeepsBooks(q: Queue, u: Updates, cfg: Config, i: nat, endsAtOnce: bool)
    requires Books(q, u) && i < |q.requests| && |u.transactions| < u.max
    requires q.requests[i].dhcid !in u.transactions
    requires forall k :: 0 <= k < i ==> q.requests[k].dhcid in u.transactions
    ensures var s := Take(q, u, cfg, i, endsAtOnce);
            !s.threw ==> Books(s.queue, s.updates)
  {
    var s := Take(q, u, cfg, i, endsAtOnce);
    var x := q.requests[i];
    TakeKeepsQueueBooks(q, i);
    TakeSplitsQueue(q, i);
    assert x.id in QueuedIds(q.requests);
    if MakePlan(cfg, x).Start? {
      StartAddsFlight(u.transactions, x.dhcid, s.updates.transactions[x.dhcid]);
    }
    assert !s.threw ==> Partition(s.queue, s.updates);
    forall d ensures Of(s.updates.taken, d) + Of(s.queue.requests, d) == Of(q.accepted, d) {
      TakeKeepsOrder(u.taken, q.requests, i, d);
    }
  }

  lemma {:induction false} SweepKeepsBooks(q: Queue, u: Updates, cfg: Config, endsAtOnce: bool)
    requires Books(q, u)
    ensures var s := Sweep(q, u, cfg, endsAtOnce);
            !s.threw ==> Books(s.queue, s.updates)
  {
    ReapKeepsBooks(q, u);
    var r := Reap(u);
    var i := FirstEligible(q.requests, r.transactions.Keys);
    if q.requests != [] && |r.transactions| < r.max && i < |q.requests| {
      TakeKeepsBooks(q, r, cfg, i, endsAtOnce);
    }
  }

  /** A sweep touches nothing of the queue but the waiting requests. */
  lemma SweepKeepsListener(q: Queue, u: Updates, cfg: Config, endsAtOnce: bool)
    requires ListenerInv(q)
    ensures var s := Sweep(q, u, cfg, endsAtOnce);
            ListenerInv(s.queue) && s.queue == q.(requests := s.queue.requests) && |s.queue.requests| <= |q.requests|
  {
  }

  // ----------------------------------------------------------------- the listener under the loop

  /** The loop keeps the listener in step, and leaves requests and history alone. */
  lemma {:induction false} CheckQueueKeepsListener(e: Engine, o: Opening)
    requires ListenerInv(e.queue)
    ensures var e' := CheckQueueStatus(e, o);
            && ListenerInv(e'.queue) && e'.updates == e.updates && e'.phase == e.phase
            && e'.queue.requests == e.queue.requests && e'.queue.accepted == e.queue.accepted
            && e'.queue.max == e.queue.max
  {
  }

  // ----------------------------------------------------------------- every step, every run

  lemma {:induction false} ReceiveKeepsInv(q: Queue, u: Updates, r: Receipt, nextOk: bool)
    requires ListenerInv(q) && Books(q, u) && Deliverable(q)
    ensures var q' := Deliver(q, Fresh(r, |q.accepted|), nextOk);
            ListenerInv(q') && Books(q', u)
  {
    var r' := Fresh(r, |q.accepted|);
    var q' := Deliver(q, r', nextOk);
    DeliverKeeps(q, r', nextOk);
    DeliverEffect(q, r', nextOk);
    if r.Received? && |q.requests| < q.max {
      ArrivalKeepsBooks(q, u, r'.ncr, q');
    }
  }

  lemma {:induction false} HandleKeepsInv(e: Engine, ev: Event)
    requires ListenerInv(e.queue) && Books(e.queue, e.updates)
    ensures ListenerInv(Handle(e, ev).queue) && Books(Handle(e, ev).queue, Handle(e, ev).updates)
  {
    if ev.Receive? {
      if Deliverable(e.queue) { ReceiveKeepsInv(e.queue, e.updates, ev.receipt, ev.nextOk); }
    } else if ev.Complete? {
      EndedKeepsBooks(e.queue, e.updates, ev.dhcid);
    } else {
      assert Handle(e, ev).queue == e.queue && Handle(e, ev).updates == e.updates;
    }
  }

  lemma {:induction false} StepKeepsInv(e: Engine, ev: Event)
    requires Inv(e)
    ensures Inv(Step(e, ev))
  {
    match e.phase
    case Top =>
      if ev.Turn? && !CanShutdown(e) {
        CheckQueueKeepsListener(e, ev.opening);
        var e1 := CheckQueueStatus(e, ev.opening);
        assert Books(e1.queue, e1.updates);
        SweepKeepsBooks(e1.queue, e1.updates, e1.cfg, ev.endsAtOnce);
        SweepKeepsListener(e1.queue, e1.updates, e1.cfg, ev.endsAtOnce);
      }
    case Io(n) => HandleKeepsInv(e, ev);
    case _ =>
  }

  lemma {:induction false} RunKeepsInv(e: Engine, events: seq<Event>)
    requires Inv(e)
    ensures Inv(Run(e, events))
    decreases |events|
  {
    if events != [] {
      StepKeepsInv(e, events[0]);
      RunKeepsInv(Step(e, events[0]), events[1..]);
    }
  }

  lemma InitialInv(maxQueue: nat, maxTransactions: nat, cfg: Config)
    requires 1 <= maxQueue && 1 <= maxTransactions
    ensures Inv(InitialEngine(maxQueue, maxTransactions, cfg))
  {
  }

  /** A state some run of the process reaches, short of an exception. */
  ghost predicate Reachable(e: Engine, maxQueue: nat, maxTransactions: nat, cfg: Config) {
    && 1 <= maxQueue && 1 <= maxTransactions && !e.phase.Failed?
    && exists events :: e == Run(InitialEngine(maxQueue, maxTransactions, cfg), events)
  }

  lemma ReachableInv(e: Engine, maxQueue: nat, maxTransactions: nat, cfg: Config)
    requires Reachable(e, maxQueue, maxTransactions, cfg)
    ensures ListenerInv(e.queue) && Books(e.queue, e.updates)
  {
    InitialInv(maxQueue, maxTransactions, cfg);
    var events :| e == Run(InitialEngine(maxQueue, maxTransactions, cfg), events);
    RunKeepsInv(InitialEngine(maxQueue, maxTransactions, cfg), events);
  }
}
