/** A drain_first shutdown comes to an end: once the listener is closed for good, the work left never
    grows, falls in every pass that gets something done, and lets the loop return when it is gone.
    Transactions may take any number of passes and complete in any order.
 */
module Drain {
  import opened Text
  import opened QueueMgr
  import opened UpdateMgr
  import opened Process
  import opened ProcessRuns
  import opened ProcessLoop
  import opened Intake

  /** Draining: the listener is down and stays down, the books are in order, drain_first was asked for. */
  ghost predicate Draining(e: Engine) {
    && ClosedForShutdown(e) && QueueQuiet(e.queue)
    && Books(e.queue, e.updates) && e.shutdownType.DrainFirst?
  }

  /** The clients whose transactions have not ended. */
  function Unfinished(u: Updates): set<string> {
    set k | k in u.transactions && !u.transactions[k].done
  }

  /** A handler that is no command. */
  predicate Plain(ev: Event) {
    IsHandler(ev) && !ev.Configure? && !ev.ShutdownCommand?
  }

  predicate NoCommands(handlers: seq<Event>) {
    forall i :: 0 <= i < |handlers| ==> Plain(handlers[i])
  }

  /** What is left to do: two units for a waiting request, which may become a transaction, one for an
      unfinished transaction, and one for the last look. */
  function Left(e: Engine): nat {
    if |e.updates.transactions| == 0 && |e.queue.requests| == 0 then 0
    else 2 * |e.queue.requests| + |Unfinished(e.updates)| + 1
  }

  // ----------------------------------------------------------------- handlers

  lemma EndedUnfinished(u: Updates, d: string)
    ensures Unfinished(Ended(u, d)) == Unfinished(u) - {d}
    ensures Ended(u, d).transactions.Keys == u.transactions.Keys
  {
  }

  /** The clients whose transactions end while the loop waits. */
  function Completed(handlers: seq<Event>): set<string> {
    set ev | ev in handlers && ev.Complete? :: ev.dhcid
  }

  lemma CompletedFirst(handlers: seq<Event>)
    requires handlers != []
    ensures Completed(handlers)
         == (if handlers[0].Complete? then {handlers[0].dhcid} else {}) + Completed(handlers[1..])
  {
    assert handlers == [handlers[0]] + handlers[1..];
  }

  /** With no receive outstanding, handlers do nothing but end transactions, and keep whatever ending
      a transaction keeps. */
  lemma {:induction false} HandlersEnd(e: Engine, handlers: seq<Event>, p: Updates -> bool)
    requires !Deliverable(e.queue) && NoCommands(handlers) && p(e.updates)
    requires forall u, d :: p(u) ==> p(Ended(u, d))
    ensures var e' := HandleAll(e, handlers);
            && e' == e.(updates := e'.updates) && p(e'.updates)
            && e'.updates.transactions.Keys == e.updates.transactions.Keys
            && Unfinished(e'.updates) == Unfinished(e.updates) - Completed(handlers)
    decreases |handlers|
  {
    if handlers != [] {
      if handlers[0].Complete? { EndedUnfinished(e.updates, handlers[0].dhcid); }
      CompletedFirst(handlers);
      HandlersEnd(Handle(e, handlers[0]), handlers[1..], p);
    }
  }

  lemma DrainingHandleAll(e: Engine, handlers: seq<Event>)
    requires Draining(e) && NoCommands(handlers)
    ensures var e' := HandleAll(e, handlers);
            && Draining(e') && e'.queue == e.queue
            && e'.updates.transactions.Keys == e.updates.transactions.Keys
            && Unfinished(e'.updates) == Unfinished(e.updates) - Completed(handlers)
  {
    forall u, d | Books(e.queue, u) ensures Books(e.queue, Ended(u, d)) { EndedKeepsBooks(e.queue, u, d); }
    HandlersEnd(e, handlers, u => Books(e.queue, u));
  }

  // ----------------------------------------------------------------- turns

  lemma DrainingTurn(e: Engine, o: Opening, endsAtOnce: bool)
    requires e.phase.Top? && Draining(e) && !CanShutdown(e)
    ensures CheckQueueStatus(e, o) == e
    ensures var e1 := LoopTurn(e, o, endsAtOnce);
            e1.phase.Failed? || (e1.phase == Io(0) && Draining(e1))
  {
    SweepKeepsBooks(e.queue, e.updates, e.cfg, endsAtOnce);
    SweepKeepsListener(e.queue, e.updates, e.cfg, endsAtOnce);
  }

  lemma ReapUnfinished(u: Updates)
    ensures Unfinished(Reap(u)) == Unfinished(u) && Reap(u).transactions.Keys == Unfinished(u)
  {
  }

  lemma TakeUnfinished(q: Queue, u: Updates, cfg: Config, i: nat, endsAtOnce: bool)
    requires i < |q.requests|
    ensures var s := Take(q, u, cfg, i, endsAtOnce);
            && |s.queue.requests| == |q.requests| - 1
            && Unfinished(s.updates) <= Unfinished(u) + {q.requests[i].dhcid}
  {
  }

  /** A sweep takes nothing, or trades a waiting request for at most one unfinished transaction; with
      no transaction unfinished it takes a request if there is one. */
  lemma SweepTrades(q: Queue, u: Updates, cfg: Config, endsAtOnce: bool)
    requires 1 <= u.max
    ensures var s := Sweep(q, u, cfg, endsAtOnce);
            || (s.queue == q && s.updates == Reap(u) && (Unfinished(u) == {} ==> q.requests == []))
            || (&& |s.queue.requests| == |q.requests| - 1
                && exists d :: Unfinished(s.updates) <= Unfinished(u) + {d})
  {
    ReapUnfinished(u);
    var r := Reap(u);
    var i := FirstEligible(q.requests, r.transactions.Keys);
    if q.requests != [] && |r.transactions| < r.max && i < |q.requests| {
      TakeUnfinished(q, r, cfg, i, endsAtOnce);
    }
    if Unfinished(u) == {} { assert r.transactions == map[]; }
  }

  lemma SweepLeft(q: Queue, u: Updates, cfg: Config, endsAtOnce: bool)
    requires 1 <= u.max
    ensures var s := Sweep(q, u, cfg, endsAtOnce);
            var before, after := 2 * |q.requests| + |Unfinished(u)|, 2 * |s.queue.requests| + |Unfinished(s.updates)|;
            && (after < before || (after == before && s.queue == q && s.updates == Reap(u)))
            && (after == before && Unfinished(u) == {} ==> q.requests == [] && s.updates.transactions == map[])
  {
    SweepTrades(q, u, cfg, endsAtOnce);
    ReapUnfinished(u);
    var s := Sweep(q, u, cfg, endsAtOnce);
    if |s.queue.requests| == |q.requests| - 1 {
      var d :| Unfinished(s.updates) <= Unfinished(u) + {d};
      SubsetSize(Unfinished(s.updates), Unfinished(u) + {d});
    }
  }

  /** The work left does not grow in a turn, and falls unless transactions are left unfinished. */
  lemma {:induction false} TurnLeft(e: Engine, o: Opening, endsAtOnce: bool)
    requires e.phase.Top? && Draining(e) && !CanShutdown(e)
    ensures var e1 := LoopTurn(e, o, endsAtOnce);
            e1.phase.Io? ==>
              && Left(e) >= 1 && 2 * |e1.queue.requests| + |Unfinished(e1.updates)| < Left(e)
              && (Unfinished(e1.updates) == {} ==> Left(e1) < Left(e))
  {
    DrainingTurn(e, o, endsAtOnce);
    SweepLeft(e.queue, e.updates, e.cfg, endsAtOnce);
  }

  // ----------------------------------------------------------------- passes

  /** A pass that waits for something and hears no command. */
  predicate Waits(p: Pass) {
    p.handlers != [] && NoCommands(p.handlers)
  }

  /** A pass that gets something done: after its sweep no transaction is unfinished, or one of the
      unfinished ones ends while the loop waits. */
  predicate Productive(e: Engine, p: Pass) {
    var u := Unfinished(LoopTurn(e, p.opening, p.endsAtOnce).updates);
    u == {} || u * Completed(p.handlers) != {}
  }

  lemma {:induction false} DrainingPass(e: Engine, p: Pass)
    requires e.phase.Top? && Draining(e) && Waits(p)
    ensures var e' := AfterPass(e, p);
            || e'.phase.Exited? || e'.phase.Failed?
            || (&& e'.phase.Top? && Draining(e') && Left(e') <= Left(e)
                && (Productive(e, p) ==> Left(e') < Left(e)))
  {
    if !CanShutdown(e) {
      DrainingTurn(e, p.opening, p.endsAtOnce);
      TurnLeft(e, p.opening, p.endsAtOnce);
      var e1 := LoopTurn(e, p.opening, p.endsAtOnce);
      if e1.phase.Io? {
        DrainingHandleAll(e1, p.handlers);
        HandledLeft(e1, p.handlers);
      }
    }
  }

  /** Waiting adds no work, and a completion of an unfinished transaction takes some away. */
  lemma HandledLeft(e: Engine, handlers: seq<Event>)
    requires Draining(e) && NoCommands(handlers)
    ensures var e' := HandleAll(e, handlers);
            && Left(e') <= Left(e)
            && (Unfinished(e.updates) * Completed(handlers) != {} ==>
                  Left(e') <= 2 * |e.queue.requests| + |Unfinished(e.updates)|)
  {
    DrainingHandleAll(e, handlers);
    var e' := HandleAll(e, handlers);
    var u, c := Unfinished(e.updates), Completed(handlers);
    SubsetSize(u - c, u);
    if u * c != {} {
      var k :| k in u * c;
      SubsetSize(u - c, u - {k});
    }
    assert |e.updates.transactions| == |e.updates.transactions.Keys|;
    assert |e'.updates.transactions| == |e'.updates.transactions.Keys|;
  }

  /** Running passes in order, for as long as the loop runs. */
  function AfterPasses(e: Engine, script: seq<Pass>): Engine
    decreases |script|
  {
    if script == [] || !e.phase.Top? then e else AfterPasses(AfterPass(e, script[0]), script[1..])
  }

  /** How many passes of a script get something done before the loop returns. */
  function ProductivePasses(e: Engine, script: seq<Pass>): nat
    decreases |script|
  {
    if script == [] || !e.phase.Top? then 0
    else (if Productive(e, script[0]) then 1 else 0) + ProductivePasses(AfterPass(e, script[0]), script[1..])
  }

  /** A draining loop has returned (or been thrown out by an unusable request) once more passes have
      got something done than there was work: twice the waiting requests, once the unfinished
      transactions, and one. Passes that get nothing done may come in between, in any number. */
  lemma {:induction false} DrainFinishes(e: Engine, script: seq<Pass>)
    requires e.phase.Top? && Draining(e) && forall i :: 0 <= i < |script| ==> Waits(script[i])
    requires ProductivePasses(e, script) > Left(e)
    ensures AfterPasses(e, script).phase.Exited? || AfterPasses(e, script).phase.Failed?
    decreases |script|
  {
    DrainingPass(e, script[0]);
    var e1 := AfterPass(e, script[0]);
    if e1.phase.Top? {
      DrainFinishes(e1, script[1..]);
    }
  }

  /** The passes of `AfterPasses` are the events of a run. */
  lemma {:induction false} PassesAreRun(e: Engine, script: seq<Pass>)
    requires !e.phase.Io?
    requires forall i :: 0 <= i < |script| ==>
               forall k :: 0 <= k < |script[i].handlers| ==> IsHandler(script[i].handlers[k])
    ensures AfterPasses(e, script) == Run(e, Events(script))
    decreases |script|
  {
    if script != [] {
      if e.phase.Top? {
        PassIsRun(e, script[0], Events(script[1..]));
        PassesAreRun(AfterPass(e, script[0]), script[1..]);
      } else {
        StuckStays(e, Events(script));
      }
    }
  }
}
