/** `D2Process` in its own form: an object that owns the two managers and runs the loop in place.
    Every method is tied to the corresponding operation of `Process`, so what `ProcessRuns` proves of
    all runs holds of the object.
 */
module ProcessLoop {
  import opened Text
  import opened QueueMgr
  import opened UpdateMgr
  import opened Process
  import opened ProcessRuns
  import opened Operation

  /** One pass of the loop as its environment sees it: how the listener opens, whether a transaction
      ends at once, and the handlers that `runIO` runs. */
  datatype Pass = Pass(opening: Opening, endsAtOnce: bool, handlers: seq<Event>)

  predicate IsHandler(ev: Event) {
    !ev.Turn? && !ev.EndIo?
  }

  /** The events of a script, one after the other. */
  function Events(script: seq<Pass>): seq<Event> {
    if script == [] then [] else
      [Turn(script[0].opening, script[0].endsAtOnce)] + (script[0].handlers + [EndIo]) + Events(script[1..])
  }

  function HandleAll(e: Engine, handlers: seq<Event>): Engine
    decreases |handlers|
  {
    if handlers == [] then e else HandleAll(Handle(e, handlers[0]), handlers[1..])
  }

  /** Waiting for IO runs the handlers in order. */
  lemma {:induction false} IoRunsHandlers(e: Engine, n: nat, handlers: seq<Event>)
    requires forall i :: 0 <= i < |handlers| ==> IsHandler(handlers[i])
    ensures Run(e.(phase := Io(n)), handlers) == HandleAll(e, handlers).(phase := Io(n + |handlers|))
    decreases |handlers|
  {
    if handlers != [] {
      var e1 := Handle(e, handlers[0]);
      HandlePhase(e, handlers[0], n);
      IoRunsHandlers(e1, n + 1, handlers[1..]);
    }
  }

  lemma HandlePhase(e: Engine, ev: Event, n: nat)
    requires IsHandler(ev)
    ensures Step(e.(phase := Io(n)), ev) == Handle(e, ev).(phase := Io(n + 1))
  {
    var e' := e.(phase := Io(n));
    assert Handle(e', ev) == Handle(e, ev).(phase := Io(n));
  }

  lemma {:induction false} HandleAllPhase(e: Engine, handlers: seq<Event>, p: Phase)
    ensures HandleAll(e, handlers).(phase := p) == HandleAll(e.(phase := p), handlers)
    decreases |handlers|
  {
    if handlers != [] {
      assert Handle(e, handlers[0]).(phase := p) == Handle(e.(phase := p), handlers[0]);
      HandleAllPhase(Handle(e, handlers[0]), handlers[1..], p);
    }
  }

  /** What one pass does to an engine at the top of the loop. */
  function AfterPass(e: Engine, p: Pass): Engine {
    var e1 := LoopTurn(e, p.opening, p.endsAtOnce);
    if !e1.phase.Io? then e1
    else HandleAll(e1, p.handlers).(phase := if p.handlers == [] then Failed else Top)
  }

  lemma PassIsRun(e: Engine, p: Pass, rest: seq<Event>)
    requires e.phase.Top?
    requires forall i :: 0 <= i < |p.handlers| ==> IsHandler(p.handlers[i])
    ensures Run(e, [Turn(p.opening, p.endsAtOnce)] + (p.handlers + [EndIo]) + rest) == Run(AfterPass(e, p), rest)
  {
    var t := Turn(p.opening, p.endsAtOnce);
    var io := p.handlers + [EndIo];
    var events := [t] + io + rest;
    assert events[1..] == io + rest;
    var e1 := Step(e, t);
    RunConcat(e1, io, rest);
    if e1.phase.Io? {
      IoRunsHandlers(e1, 0, p.handlers);
      assert e1.(phase := Io(0)) == e1;
      RunConcat(e1, p.handlers, [EndIo]);
      LastStep(Run(e1, p.handlers), EndIo);
    } else {
      StuckStays(e1, io);
    }
  }

  lemma LastStep(e: Engine, ev: Event)
    ensures Run(e, [ev]) == Step(e, ev)
  {
    assert Run(e, [ev]) == Run(Step(e, ev), [ev][1..]);
  }

  lemma {:induction false} StuckStays(e: Engine, events: seq<Event>)
    requires e.phase.Exited? || e.phase.Failed?
    ensures Run(e, events) == e
    decreases |events|
  {
    if events != [] { StuckStays(Step(e, events[0]), events[1..]); }
  }

  /** `D2Process`. */
  class D2Process {
    const queueMgr: D2QueueMgr
    const updateMgr: D2UpdateMgr
    var cfg: Config
    var reconfQueueFlag: bool
    var shutdownFlag: bool
    var shutdownType: ShutdownType

    ghost predicate Valid()
    {
      updateMgr.queueMgr == queueMgr
    }

    ghost function Model(p: Phase): Engine
      reads this, queueMgr, updateMgr
    {
      Engine(queueMgr.Model(), updateMgr.Model(), cfg, reconfQueueFlag, shutdownFlag, shutdownType, p)
    }

    constructor (maxQueue: nat, maxTransactions: nat, cfg: Config)
      requires 1 <= maxQueue && 1 <= maxTransactions
      ensures Valid() && fresh(queueMgr) && fresh(updateMgr)
      ensures Model(Top) == InitialEngine(maxQueue, maxTransactions, cfg)
    {
      var q := new D2QueueMgr(maxQueue);
      var u := new D2UpdateMgr(q, maxTransactions);
      queueMgr, updateMgr := q, u;
      this.cfg := cfg;
      reconfQueueFlag, shutdownFlag, shutdownType := false, false, Normal;
    }

    method MayShutdown() returns (allClear: bool)
      ensures allClear == CanShutdown(Model(Top))
    {
      allClear := false;
      if shutdownFlag {
        var quiet := queueMgr.mgrState != Running && queueMgr.mgrState != Stopping;
        match shutdownType
        case Normal => allClear := quiet && |updateMgr.transactionList| == 0;
        case DrainFirst => allClear := quiet && |queueMgr.ncrQueue| == 0 && |updateMgr.transactionList| == 0;
        case Now => allClear := true;
      }
    }

    method OnShutdown(arg: Option<string>) returns (rcode: int)
      requires Valid()
      modifies this
      ensures Model(Top) == Shutdown(old(Model(Top)), arg)
      ensures rcode == 0 <==> shutdownFlag
    {
      shutdownType := Normal;
      if arg.Some? {
        var t := arg.value;
        if t == "normal" {
          shutdownType := Normal;
        } else if t == "drain_first" {
          shutdownType := DrainFirst;
        } else if t == "now" {
          shutdownType := Now;
        } else {
          shutdownFlag := false;
          return 1;
        }
      }
      shutdownFlag := true;
      rcode := 0;
    }

    method OnConfigure(valid: bool, checkOnly: bool, newCfg: Config)
      modifies this
      ensures Model(Top) == Reconfigured(old(Model(Top)), valid, checkOnly, newCfg)
    {
      if checkOnly { return; }
      if !valid {
        reconfQueueFlag := false;
        return;
      }
      cfg := newCfg;
      reconfQueueFlag := true;
    }

    method ReconfigureQueueMgr(o: Opening)
      requires Valid()
      modifies this, queueMgr
      ensures Model(Top) == old(Model(Top)).(reconf := false, queue := Reconfigure(old(queueMgr.Model()), o))
    {
      reconfQueueFlag := false;
      var threw := queueMgr.Remove();
      if threw { return; }
      threw := queueMgr.InitUdpListener();
      if threw { return; }
      threw := queueMgr.Start(o);
    }

    method CheckQueue(o: Opening)
      requires Valid()
      modifies this, queueMgr
      ensures Model(Top) == CheckQueueStatus(old(Model(Top)), o)
      ensures ListenerInv(old(queueMgr.Model())) ==> (queueMgr.mgrState == Running <==> Listens(old(Model(Top)), o))
    {
      if ListenerInv(queueMgr.Model()) { CheckListens(Model(Top), o); }
      match queueMgr.mgrState
      case Running =>
        if reconfQueueFlag || shutdownFlag {
          var _ := queueMgr.StopListener(Stopped);
        }
      case StoppedQueueFull =>
        var threshold := queueMgr.maxQueueSize * QUEUE_RESTART_PERCENT % SIZE_MODULUS / 100;
        if |queueMgr.ncrQueue| <= threshold {
          var _ := queueMgr.Start(o);
        }
      case StoppedRecvError =>
        if !shutdownFlag {
          ReconfigureQueueMgr(o);
        }
      case Stopping =>
      case _ =>
        if reconfQueueFlag {
          ReconfigureQueueMgr(o);
        }
    }

    /** A handler run by the IO service. */
    method OnEvent(ev: Event)
      requires Valid() && IsHandler(ev)
      modifies this, queueMgr, updateMgr
      ensures Model(Top) == Handle(old(Model(Top)), ev)
    {
      match ev
      case Receive(r, nextOk) =>
        if queueMgr.listener.Some? && queueMgr.listener.value.receiving {
          queueMgr.InvokeRecvHandler(Fresh(r, |queueMgr.accepted|), nextOk);
        }
      case Complete(d) =>
        if d in updateMgr.transactionList {
          updateMgr.transactionList := updateMgr.transactionList[d := updateMgr.transactionList[d].(done := true)];
        }
      case ShutdownCommand(a) =>
        var _ := OnShutdown(a);
      case Configure(v, c, n) =>
        OnConfigure(v, c, n);
      case _ =>
    }

    /** `runIO`: run what is ready; running nothing means the service was stopped. */
    method RunIo(handlers: seq<Event>) returns (count: nat)
      requires Valid() && forall i :: 0 <= i < |handlers| ==> IsHandler(handlers[i])
      modifies this, queueMgr, updateMgr
      ensures Model(Top) == HandleAll(old(Model(Top)), handlers) && count == |handlers|
    {
      count := 0;
      while count < |handlers|
        invariant 0 <= count <= |handlers|
        invariant HandleAll(Model(Top), handlers[count..]) == HandleAll(old(Model(Top)), handlers)
      {
        assert handlers[count..][1..] == handlers[count + 1..];
        OnEvent(handlers[count]);
        count := count + 1;
      }
    }

    /** `run`: the loop itself, against every script of its environment.  The object ends in the very
        state in which the run of the same events ends. */
    method RunLoop(script: seq<Pass>) returns (phase: Phase)
      requires Valid()
      requires forall i :: 0 <= i < |script| ==>
                 forall k :: 0 <= k < |script[i].handlers| ==> IsHandler(script[i].handlers[k])
      modifies this, queueMgr, updateMgr
      ensures Model(phase) == Run(old(Model(Top)), Events(script))
    {
      phase := Top;
      var i := 0;
      assert script[0..] == script;
      while i < |script| && phase.Top?
        invariant 0 <= i <= |script|
        invariant Run(Model(phase), Events(script[i..])) == Run(old(Model(Top)), Events(script))
        invariant phase.Top? || phase.Exited? || phase.Failed?
        decreases |script| - i, phase.Top?
      {
        ghost var before := Model(Top);
        var pass := script[i];
        assert script[i..][0] == pass && script[i..][1..] == script[i + 1..];
        PassIsRun(before, pass, Events(script[i + 1..]));
        phase := DoPass(pass);
        i := i + 1;
      }
      if phase.Top? {
        assert script[i..] == [];
      } else {
        StuckStays(Model(phase), Events(script[i..]));
      }
    }

    /** One pass: test, check the queue, sweep, wait. */
    method DoPass(pass: Pass) returns (phase: Phase)
      requires Valid()
      requires forall k :: 0 <= k < |pass.handlers| ==> IsHandler(pass.handlers[k])
      modifies this, queueMgr, updateMgr
      ensures Model(phase) == AfterPass(old(Model(Top)), pass)
      ensures phase.Top? || phase.Exited? || phase.Failed?
    {
      var stop := MayShutdown();
      if stop { return Exited; }
      CheckQueue(pass.opening);
      var threw := updateMgr.SweepOnce(cfg, pass.endsAtOnce);
      if threw { return Failed; }
      ghost var mid := Model(Top);
      assert LoopTurn(old(Model(Top)), pass.opening, pass.endsAtOnce) == mid.(phase := Io(0));
      var count := RunIo(pass.handlers);
      phase := if count == 0 then Failed else Top;
      HandleAllPhase(mid, pass.handlers, Io(0));
    }
  }
}
