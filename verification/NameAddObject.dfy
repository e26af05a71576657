/** `NameAddTransaction` in its own form: an object whose handlers post events and store the current
    request, run by the loop of `runModel`.  Every method is tied to the function of `NameAdd` that
    the theorems about all runs are about.
 */
module NameAddObject {
  import opened Text
  import opened DnsUpdate
  import opened NameAdd

  class NameAddTransaction {
    var currState: TState
    var nextEvent: TEvent
    var onEntryFlag: bool
    var dnsUpdateRequest: Option<Kind>
    var updateAttempts: nat
    var dnsUpdateStatus: Status
    const forwardServers: Option<nat>
    const reverseServers: Option<nat>
    var currentServerCount: nat
    var nextServerPos: nat
    var forwardChangeCompleted: bool
    var reverseChangeCompleted: bool
    var ncrStatus: NcrStatus
    ghost var sent: seq<Kind>

    ghost function Model(): Trans
      reads this
    {
      Trans(currState, nextEvent, onEntryFlag, dnsUpdateRequest, updateAttempts, dnsUpdateStatus,
            forwardServers, reverseServers, currentServerCount, nextServerPos,
            forwardChangeCompleted, reverseChangeCompleted, ncrStatus, sent)
    }

    /** A transaction set to enter READY_ST with START_EVT. */
    constructor (fwd: Option<nat>, rev: Option<nat>)
      ensures Model() == NewTrans(fwd, rev)
    {
      currState, nextEvent, onEntryFlag := Ready, StartEvt, true;
      dnsUpdateRequest, updateAttempts, dnsUpdateStatus := None, 0, OtherError;
      forwardServers, reverseServers := fwd, rev;
      currentServerCount, nextServerPos := 0, 0;
      forwardChangeCompleted, reverseChangeCompleted, ncrStatus := false, false, Pending;
      sent := [];
    }

    method Transition(st: TState, ev: TEvent)
      modifies this
      ensures Model() == Goto(old(Model()), st, ev)
    {
      onEntryFlag := st != End && st != currState;
      currState := st;
      nextEvent := ev;
    }

    method AbortModel()
      modifies this
      ensures Model() == Abort(old(Model()))
    {
      Transition(End, FailEvt);
      ncrStatus := FailedStatus;
    }

    method ClearOnEntry()
      modifies this
      ensures Model() == Enter(old(Model()))
    {
      var entering := onEntryFlag;
      onEntryFlag := false;
      if entering {
        updateAttempts := 0;
        dnsUpdateRequest := None;
      }
    }

    method RetryOr(failTo: TState)
      modifies this
      ensures Model() == RetryTransition(old(Model()), failTo)
    {
      if updateAttempts < MAX_UPDATE_TRIES_PER_SERVER {
        Transition(currState, ServerSelected);
      } else {
        Transition(failTo, ServerIoError);
      }
    }

    method BuildAndSendUpdate(k: Kind, env: Env)
      modifies this
      ensures Model() == BuildAndSend(old(Model()), k, env)
    {
      if dnsUpdateRequest.None? {
        if !env.buildOk {
          Transition(TransFailed, UpdateFailed);
          return;
        }
        dnsUpdateRequest := Some(k);
      }
      updateAttempts := updateAttempts + 1;
      if env.sendOk {
        sent := sent + [dnsUpdateRequest.value];
        nextEvent := Nop;
      } else {
        Transition(TransFailed, UpdateFailed);
      }
    }

    method SelectNextServer() returns (ok: bool)
      modifies this
      ensures ok <==> old(nextServerPos) < old(currentServerCount)
      ensures Model() == if ok then old(Model()).(nextServer := old(nextServerPos) + 1) else old(Model())
    {
      if nextServerPos < currentServerCount {
        nextServerPos := nextServerPos + 1;
        return true;
      }
      return false;
    }

    method InitServerSelection(count: nat)
      modifies this
      ensures Model() == old(Model()).(serverCount := count, nextServer := 0)
    {
      currentServerCount := count;
      nextServerPos := 0;
    }

    method SelectAndGo(st: TState)
      modifies this
      ensures Model() == SelectNext(old(Model()), st)
    {
      var ok := SelectNextServer();
      if ok {
        Transition(st, ServerSelected);
      } else {
        Transition(TransFailed, NoMoreServers);
      }
    }

    method SelectingServerHandler(servers: Option<nat>, st: TState)
      modifies this
      ensures Model() == SelectingHandler(old(Model()), servers, st)
    {
      if nextEvent == SelectServer {
        if servers.None? {
          AbortModel();
          return;
        }
        InitServerSelection(servers.value);
      } else if nextEvent != ServerIoError {
        AbortModel();
        return;
      }
      SelectAndGo(st);
    }

    method SetForwardDone()
      modifies this
      ensures Model() == ForwardDone(old(Model()))
    {
      forwardChangeCompleted := true;
      if reverseServers.Some? {
        Transition(SelectingRev, SelectServer);
      } else {
        Transition(TransOk, UpdateOk);
      }
    }

    method AddingFwdAddrsHandler(env: Env)
      modifies this
      ensures Model() == AddingHandler(old(Model()), env)
      ensures forwardChangeCompleted <==>
                old(forwardChangeCompleted) || (old(nextEvent) == IoCompleted && old(dnsUpdateStatus) == Success(NoError))
    {
      ClearOnEntry();
      match nextEvent
      case ServerSelected => BuildAndSendUpdate(AddFwd, env);
      case IoCompleted =>
        match dnsUpdateStatus {
          case Success(rcode) =>
            if rcode == NoError { SetForwardDone(); }
            else if rcode == YxDomain { Transition(ReplacingFwd, FqdnInUse); }
            else { Transition(TransFailed, UpdateFailed); }
          case IoStopped => Transition(TransFailed, UpdateFailed);
          case _ => RetryOr(SelectingFwd);
        }
      case _ => AbortModel();
    }

    method ReplacingFwdAddrsHandler(env: Env)
      modifies this
      ensures Model() == ReplacingHandler(old(Model()), env)
      ensures forwardChangeCompleted <==>
                old(forwardChangeCompleted) || (old(nextEvent) == IoCompleted && old(dnsUpdateStatus) == Success(NoError))
    {
      ClearOnEntry();
      match nextEvent
      case FqdnInUse => BuildAndSendUpdate(ReplaceFwd, env);
      case ServerSelected => BuildAndSendUpdate(ReplaceFwd, env);
      case IoCompleted =>
        match dnsUpdateStatus {
          case Success(rcode) =>
            if rcode == NoError { SetForwardDone(); }
            else if rcode == NxDomain { Transition(AddingFwd, ServerSelected); }
            else { Transition(TransFailed, UpdateFailed); }
          case IoStopped => Transition(TransFailed, UpdateFailed);
          case _ => RetryOr(SelectingFwd);
        }
      case _ => AbortModel();
    }

    method ReplacingRevPtrsHandler(env: Env)
      modifies this
      ensures Model() == ReplacingRevHandler(old(Model()), env)
      ensures reverseChangeCompleted <==>
                old(reverseChangeCompleted) || (old(nextEvent) == IoCompleted && old(dnsUpdateStatus) == Success(NoError))
    {
      ClearOnEntry();
      match nextEvent
      case ServerSelected => BuildAndSendUpdate(ReplaceRev, env);
      case IoCompleted =>
        match dnsUpdateStatus {
          case Success(rcode) =>
            if rcode == NoError {
              reverseChangeCompleted := true;
              Transition(TransOk, UpdateOk);
            } else {
              Transition(TransFailed, UpdateFailed);
            }
          case IoStopped => Transition(TransFailed, UpdateFailed);
          case _ => RetryOr(SelectingRev);
        }
      case _ => AbortModel();
    }

    method EndWith(status: NcrStatus, expected: bool)
      modifies this
      ensures Model() == if expected then Goto(old(Model()).(ncrStatus := status), End, EndEvt) else Abort(old(Model()))
    {
      if expected {
        ncrStatus := status;
        Transition(End, EndEvt);
      } else {
        AbortModel();
      }
    }

    method RunHandler(env: Env)
      modifies this
      ensures Model() == Handler(old(Model()), env)
    {
      match currState
      case Ready =>
        if nextEvent != StartEvt { AbortModel(); }
        else if forwardServers.Some? { Transition(SelectingFwd, SelectServer); }
        else { Transition(SelectingRev, SelectServer); }
      case SelectingFwd => SelectingServerHandler(forwardServers, AddingFwd);
      case SelectingRev => SelectingServerHandler(reverseServers, ReplacingRev);
      case AddingFwd => AddingFwdAddrsHandler(env);
      case ReplacingFwd => ReplacingFwdAddrsHandler(env);
      case ReplacingRev => ReplacingRevPtrsHandler(env);
      case TransOk => EndWith(Completed, nextEvent == UpdateOk);
      case TransFailed => EndWith(FailedStatus, nextEvent == UpdateFailed || nextEvent == NoMoreServers);
      case End =>
    }

    /** The loop of `runModel`, which ends because events only ever lose rank. */
    method RunStateModel(env: Env)
      modifies this
      ensures Model() == RunModel(old(Model()), env)
    {
      RunsOn(Model(), env);
      RunHandler(env);
      while currState != End && nextEvent != Nop
        invariant Rest(Model(), env) == RunModel(old(Model()), env)
        decreases if currState == End || nextEvent == Nop then 0 else Rank(nextEvent) + 1
      {
        RunsOn(Model(), env);
        RunHandler(env);
      }
    }

    /** `startTransaction` on a new transaction: it comes to wait for a server, or to its end with a
        status that tells whether every requested direction was updated. */
    method StartTransaction(env: Env)
      requires (forwardServers.Some? || reverseServers.Some?) && Model() == NewTrans(forwardServers, reverseServers)
      modifies this
      ensures Model() == RunModel(NewTrans(forwardServers, reverseServers), env) && Stable(Model())
    {
      ModelSettles(NewTrans(forwardServers, reverseServers), env);
      RunStateModel(env);
    }

    /** The DNS client's callback. */
    method OnUpdateDone(io: Io)
      requires Waiting(Model()) && Stable(Model())
      modifies this
      ensures Model() == Resume(old(Model()), io) && Stable(Model())
    {
      ResumeSettles(Model(), io);
      dnsUpdateStatus := io.status;
      nextEvent := IoCompleted;
      RunStateModel(io.env);
    }
  }
}
