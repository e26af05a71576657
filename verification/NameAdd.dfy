/** The add transaction, `NameAddTransaction` of nc_add.cc over `NameChangeTransaction` of nc_trans.cc
    and `StateModel` of state_model.cc.

    A handler consumes the posted event and either sends a request and waits, or moves on.  The
    model is run to the next wait by `runModel`, once to start it and once for every completed
    exchange with a server.
 */
module NameAdd {
  import opened Text
  import opened DnsUpdate

  const MAX_UPDATE_TRIES_PER_SERVER := 3

  datatype TState = Ready | SelectingFwd | SelectingRev | AddingFwd | ReplacingFwd | ReplacingRev
                  | TransOk | TransFailed | End

  datatype TEvent = Nop | StartEvt | SelectServer | ServerSelected | ServerIoError | NoMoreServers
                  | IoCompleted | UpdateOk | UpdateFailed | FqdnInUse | EndEvt | FailEvt

  /** `DNSClient::Status`, with the server's rcode when there was an answer. */
  datatype Status = Success(rcode: Rcode) | Timeout | OtherError | InvalidResponse | IoStopped

  datatype NcrStatus = Pending | Completed | FailedStatus

  /** The fields of a transaction.  `fwd` and `rev` are the sizes of the domains' server lists;
      `sent` is the history of requests sent. */
  datatype Trans = Trans(st: TState, ev: TEvent, onEntry: bool, request: Option<Kind>, attempts: nat,
                         status: Status, fwd: Option<nat>, rev: Option<nat>,
                         serverCount: nat, nextServer: nat,
                         fwdDone: bool, revDone: bool, ncrStatus: NcrStatus, sent: seq<Kind>)

  /** What the environment decides while a model runs: whether building and sending a request work. */
  datatype Env = Env(buildOk: bool, sendOk: bool)

  // ----------------------------------------------------------------- the handlers

  /** How far an event is from a wait or the end: each handler posts an event of lower rank. */
  function Rank(ev: TEvent): nat {
    match ev
    case IoCompleted => 6
    case StartEvt => 5
    case SelectServer => 4
    case ServerIoError => 4
    case ServerSelected => 3
    case FqdnInUse => 3
    case UpdateOk => 2
    case UpdateFailed => 2
    case NoMoreServers => 2
    case _ => 0
  }

  /** A handler waits, ends the model or posts an event of lower rank, so `runModel` comes to rest. */
  predicate Progress(before: TEvent, t: Trans) {
    t.st.End? || t.ev.Nop? || Rank(t.ev) < Rank(before)
  }

  /** `transition`: the entry flag is set when the state changes. */
  function Goto(t: Trans, st: TState, ev: TEvent): Trans {
    t.(st := st, ev := ev, onEntry := st != End && st != t.st)
  }

  /** An unexpected event throws, and `runModel` turns that into `abortModel`. */
  function Abort(t: Trans): Trans {
    Goto(t, End, FailEvt).(ncrStatus := FailedStatus)
  }

  /** `doOnEntry` and `clearDnsUpdateRequest`. */
  function Enter(t: Trans): Trans {
    if t.onEntry then t.(onEntry := false, attempts := 0, request := None) else t
  }

  /** Build the request unless there is one, then `sendUpdate`. */
  function BuildAndSend(t: Trans, k: Kind, env: Env): (r: Trans)
    ensures r.ev.Nop? || r.ev.UpdateFailed?
  {
    if t.request.None? && !env.buildOk then Goto(t, TransFailed, UpdateFailed)
    else
      var r := if t.request.None? then k else t.request.value;
      var t1 := t.(request := Some(r), attempts := t.attempts + 1);
      if env.sendOk then t1.(ev := Nop, sent := t.sent + [r]) else Goto(t1, TransFailed, UpdateFailed)
  }

  function RetryTransition(t: Trans, failTo: TState): Trans {
    if t.attempts < MAX_UPDATE_TRIES_PER_SERVER then Goto(t, t.st, ServerSelected)
    else Goto(t, failTo, ServerIoError)
  }

  /** `selectNextServer` and the transition it decides. */
  function SelectNext(t: Trans, st: TState): Trans {
    if t.nextServer < t.serverCount then Goto(t.(nextServer := t.nextServer + 1), st, ServerSelected)
    else Goto(t, TransFailed, NoMoreServers)
  }

  function SelectingHandler(t: Trans, servers: Option<nat>, st: TState): (r: Trans)
    ensures Progress(t.ev, r)
  {
    if t.ev.SelectServer? then
      if servers.None? then Abort(t) else SelectNext(t.(serverCount := servers.value, nextServer := 0), st)
    else if t.ev.ServerIoError? then SelectNext(t, st)
    else Abort(t)
  }

  /** After a successful forward update: on to the reverse one, or done. */
  function ForwardDone(t: Trans): Trans {
    var t1 := t.(fwdDone := true);
    if t.rev.Some? then Goto(t1, SelectingRev, SelectServer) else Goto(t1, TransOk, UpdateOk)
  }

  function AddingHandler(t0: Trans, env: Env): (r: Trans)
    ensures Progress(t0.ev, r)
  {
    var t := Enter(t0);
    match t.ev
    case ServerSelected => BuildAndSend(t, AddFwd, env)
    case IoCompleted =>
      (match t.status
       case Success(rc) =>
         if rc == NoError then ForwardDone(t)
         else if rc == YxDomain then Goto(t, ReplacingFwd, FqdnInUse)
         else Goto(t, TransFailed, UpdateFailed)
       case IoStopped => Goto(t, TransFailed, UpdateFailed)
       case _ => RetryTransition(t, SelectingFwd))
    case _ => Abort(t)
  }

  function ReplacingHandler(t0: Trans, env: Env): (r: Trans)
    ensures Progress(t0.ev, r)
  {
    var t := Enter(t0);
    match t.ev
    case FqdnInUse => BuildAndSend(t, ReplaceFwd, env)
    case ServerSelected => BuildAndSend(t, ReplaceFwd, env)
    case IoCompleted =>
      (match t.status
       case Success(rc) =>
         if rc == NoError then ForwardDone(t)
         else if rc == NxDomain then Goto(t, AddingFwd, ServerSelected)
         else Goto(t, TransFailed, UpdateFailed)
       case IoStopped => Goto(t, TransFailed, UpdateFailed)
       case _ => RetryTransition(t, SelectingFwd))
    case _ => Abort(t)
  }

  function ReplacingRevHandler(t0: Trans, env: Env): (r: Trans)
    ensures Progress(t0.ev, r)
  {
    var t := Enter(t0);
    match t.ev
    case ServerSelected => BuildAndSend(t, ReplaceRev, env)
    case IoCompleted =>
      (match t.status
       case Success(rc) =>
         if rc == NoError then Goto(t.(revDone := true), TransOk, UpdateOk)
         else Goto(t, TransFailed, UpdateFailed)
       case IoStopped => Goto(t, TransFailed, UpdateFailed)
       case _ => RetryTransition(t, SelectingRev))
    case _ => Abort(t)
  }

  function Handler(t: Trans, env: Env): (r: Trans)
    ensures Progress(t.ev, r)
  {
    match t.st
    case Ready =>
      if t.ev != StartEvt then Abort(t)
      else if t.fwd.Some? then Goto(t, SelectingFwd, SelectServer)
      else Goto(t, SelectingRev, SelectServer)
    case SelectingFwd => SelectingHandler(t, t.fwd, AddingFwd)
    case SelectingRev => SelectingHandler(t, t.rev, ReplacingRev)
    case AddingFwd => AddingHandler(t, env)
    case ReplacingFwd => ReplacingHandler(t, env)
    case ReplacingRev => ReplacingRevHandler(t, env)
    case TransOk => if t.ev != UpdateOk then Abort(t) else Goto(t.(ncrStatus := Completed), End, EndEvt)
    case TransFailed =>
      if t.ev != UpdateFailed && t.ev != NoMoreServers then Abort(t)
      else Goto(t.(ncrStatus := FailedStatus), End, EndEvt)
    case End => t
  }

  /** The loop of `runModel`. */
  function RunModel(t: Trans, env: Env): Trans
    decreases Rank(t.ev)
  {
    var t' := Handler(t, env);
    if t'.st.End? || t'.ev.Nop? then t' else RunModel(t', env)
  }

  /** The model at rest, or run on. */
  function Rest(t: Trans, env: Env): Trans {
    if t.st.End? || t.ev.Nop? then t else RunModel(t, env)
  }

  /** One round of the loop. */
  lemma RunsOn(t: Trans, env: Env)
    ensures RunModel(t, env) == Rest(Handler(t, env), env)
  {
  }

  // ----------------------------------------------------------------- runs

  function NewTrans(fwd: Option<nat>, rev: Option<nat>): Trans {
    Trans(Ready, StartEvt, true, None, 0, OtherError, fwd, rev, 0, 0, false, false, Pending, [])
  }

  /** One completed exchange with a server. */
  datatype Io = Io(status: Status, env: Env)

  predicate Waiting(t: Trans) {
    t.ev.Nop? && !t.st.End?
  }

  /** The callback of `DNSClient`, `operator()`. */
  function Resume(t: Trans, io: Io): Trans {
    if !Waiting(t) then t else RunModel(t.(status := io.status, ev := IoCompleted), io.env)
  }

  function Continue(t: Trans, ios: seq<Io>): Trans
    decreases |ios|
  {
    if ios == [] then t else Continue(Resume(t, ios[0]), ios[1..])
  }

  /** Any run: start the model, then let exchanges complete. */
  function Run(fwd: Option<nat>, rev: Option<nat>, start: Env, ios: seq<Io>): Trans {
    Continue(RunModel(NewTrans(fwd, rev), start), ios)
  }

  // ----------------------------------------------------------------- what every run keeps

  function KindOf(st: TState): Kind {
    match st
    case AddingFwd => AddFwd
    case ReplacingFwd => ReplaceFwd
    case _ => ReplaceRev
  }

  predicate Forward(st: TState) {
    st.AddingFwd? || st.ReplacingFwd?
  }

  predicate RevAllowed(t: Trans) {
    t.fwd.None? || t.fwdDone
  }

  predicate AllDone(t: Trans) {
    (t.fwd.Some? ==> t.fwdDone) && (t.rev.Some? ==> t.revDone)
  }

  /** Reverse requests come after every forward request, and only when they are allowed. */
  ghost predicate SentInOrder(t: Trans) {
    && (forall i :: 0 <= i < |t.sent| && t.sent[i].ReplaceRev? ==> RevAllowed(t))
    && (forall i, j :: 0 <= i < j < |t.sent| && t.sent[i].ReplaceRev? ==> t.sent[j].ReplaceRev?)
  }

  predicate Fresh(t: Trans) {
    !t.revDone && t.ncrStatus.Pending?
  }

  /** The direction of a sending state may be updated, from the server list of its domain. */
  predicate Direction(t: Trans) {
    && 1 <= t.nextServer <= t.serverCount && Fresh(t)
    && if Forward(t.st) then t.fwd == Some(t.serverCount) && !t.fwdDone
       else t.rev == Some(t.serverCount) && RevAllowed(t)
  }

  /** A transaction waiting for a server: the right request is out, and it is counted. */
  predicate WaitInv(t: Trans) {
    && (Forward(t.st) || t.st.ReplacingRev?) && Direction(t)
    && !t.onEntry && t.request == Some(KindOf(t.st)) && 1 <= t.attempts <= MAX_UPDATE_TRIES_PER_SERVER
  }

  /** Between runs of the model a transaction waits, or has ended without an unexpected event and
      with a status that tells exactly whether every requested direction was updated. */
  predicate Settled(t: Trans) {
    if t.st.End? then t.ev.EndEvt? && !t.ncrStatus.Pending? && (t.ncrStatus.Completed? <==> AllDone(t))
    else Waiting(t) && WaitInv(t)
  }

  /** Just before a request is sent from a sending state. */
  predicate AboutToSend(t: Trans) {
    && (t.ev.ServerSelected? || (t.ev.FqdnInUse? && t.st.ReplacingFwd?))
    && (t.onEntry || (t.request == Some(KindOf(t.st)) && 1 <= t.attempts < MAX_UPDATE_TRIES_PER_SERVER))
    && Direction(t)
  }

  predicate SelectEvent(t: Trans, servers: Option<nat>) {
    servers.Some? && (t.ev.SelectServer? || (t.ev.ServerIoError? && servers == Some(t.serverCount) && t.nextServer <= t.serverCount))
  }

  /** Between two handlers of one run of the model. */
  predicate Transit(t: Trans) {
    match t.st
    case Ready => t.ev.StartEvt? && (t.fwd.Some? || t.rev.Some?) && Fresh(t) && !t.fwdDone
    case SelectingFwd => Fresh(t) && !t.fwdDone && SelectEvent(t, t.fwd)
    case SelectingRev => Fresh(t) && RevAllowed(t) && SelectEvent(t, t.rev)
    case TransOk => t.ev.UpdateOk? && AllDone(t)
    case TransFailed => (t.ev.UpdateFailed? || t.ev.NoMoreServers?) && !AllDone(t)
    case End => false
    case _ => if t.ev.IoCompleted? then WaitInv(t) else AboutToSend(t)
  }

  /** What a handler may leave behind. */
  predicate Good(t: Trans) {
    if t.st.End? || t.ev.Nop? then Settled(t) else Transit(t)
  }

  lemma SendingGood(t: Trans, env: Env)
    requires Transit(t) && (Forward(t.st) || t.st.ReplacingRev?) && !t.ev.IoCompleted?
    ensures Good(Handler(t, env))
  {
    assert Handler(t, env) == BuildAndSend(Enter(t), KindOf(t.st), env);
  }

  lemma RetryGood(t: Trans, failTo: TState)
    requires Transit(t) && t.ev.IoCompleted? && (Forward(t.st) || t.st.ReplacingRev?)
    requires failTo == if Forward(t.st) then SelectingFwd else SelectingRev
    ensures Good(RetryTransition(t, failTo))
  {
  }

  lemma ForwardDoneGood(t: Trans)
    requires WaitInv(t) && Forward(t.st)
    ensures Good(ForwardDone(t))
  {
  }

  lemma AddingGood(t: Trans, env: Env)
    requires Transit(t) && t.st.AddingFwd? && t.ev.IoCompleted?
    ensures Good(Handler(t, env))
  {
    assert Enter(t) == t;
    ForwardDoneGood(t);
    RetryGood(t, SelectingFwd);
  }

  lemma ReplacingGood(t: Trans, env: Env)
    requires Transit(t) && t.st.ReplacingFwd? && t.ev.IoCompleted?
    ensures Good(Handler(t, env))
  {
    assert Enter(t) == t;
    ForwardDoneGood(t);
    RetryGood(t, SelectingFwd);
  }

  lemma ReplacingRevGood(t: Trans, env: Env)
    requires Transit(t) && t.st.ReplacingRev? && t.ev.IoCompleted?
    ensures Good(Handler(t, env))
  {
    assert Enter(t) == t;
    RetryGood(t, SelectingRev);
  }

  lemma SelectNextGood(t: Trans, st: TState)
    requires Fresh(t)
    requires (st.AddingFwd? && t.st.SelectingFwd? && !t.fwdDone && t.fwd == Some(t.serverCount))
          || (st.ReplacingRev? && t.st.SelectingRev? && RevAllowed(t) && t.rev == Some(t.serverCount))
    ensures Good(SelectNext(t, st))
  {
  }

  lemma SelectingGood(t: Trans, env: Env)
    requires Transit(t) && (t.st.SelectingFwd? || t.st.SelectingRev?)
    ensures Good(Handler(t, env))
  {
    var (servers, st) := if t.st.SelectingFwd? then (t.fwd, AddingFwd) else (t.rev, ReplacingRev);
    assert Handler(t, env) == SelectingHandler(t, servers, st);
    if t.ev.SelectServer? {
      SelectNextGood(t.(serverCount := servers.value, nextServer := 0), st);
    } else {
      SelectNextGood(t, st);
    }
  }

  lemma HandlerGood(t: Trans, env: Env)
    requires Transit(t)
    ensures Good(Handler(t, env))
  {
    if t.st.SelectingFwd? || t.st.SelectingRev? {
      SelectingGood(t, env);
    } else if Forward(t.st) || t.st.ReplacingRev? {
      if !t.ev.IoCompleted? { SendingGood(t, env); }
      else if t.st.AddingFwd? { AddingGood(t, env); }
      else if t.st.ReplacingFwd? { ReplacingGood(t, env); }
      else { ReplacingRevGood(t, env); }
    }
  }

  /** A handler sends at most the request of its state, and never takes back a finished direction. */
  lemma {:induction false} HandlerSends(t: Trans, env: Env)
    requires Transit(t)
    ensures var t' := Handler(t, env);
            && t'.fwd == t.fwd && t'.rev == t.rev && (t.fwdDone ==> t'.fwdDone)
            && (t'.sent == t.sent
                || ((Forward(t.st) || t.st.ReplacingRev?) && AboutToSend(t) && t'.sent == t.sent + [KindOf(t.st)]))
  {
    if (Forward(t.st) || t.st.ReplacingRev?) && !t.ev.IoCompleted? {
      assert Handler(t, env) == BuildAndSend(Enter(t), KindOf(t.st), env);
    }
  }

  lemma HandlerInOrder(t: Trans, env: Env)
    requires Transit(t) && SentInOrder(t)
    ensures SentInOrder(Handler(t, env))
  {
    HandlerSends(t, env);
  }

  /** A run of the model comes to rest: no handler meets an event it does not expect. */
  lemma {:induction false} ModelSettles(t: Trans, env: Env)
    requires Transit(t) && SentInOrder(t)
    ensures Settled(RunModel(t, env)) && SentInOrder(RunModel(t, env))
    decreases Rank(t.ev)
  {
    HandlerGood(t, env);
    HandlerInOrder(t, env);
    var t' := Handler(t, env);
    if !t'.st.End? && !t'.ev.Nop? { ModelSettles(t', env); }
  }

  ghost predicate Stable(t: Trans) {
    Settled(t) && SentInOrder(t)
  }

  lemma ResumeSettles(t: Trans, io: Io)
    requires Stable(t)
    ensures Stable(Resume(t, io))
  {
    if Waiting(t) { ModelSettles(t.(status := io.status, ev := IoCompleted), io.env); }
  }

  lemma {:induction false} ContinueSettles(t: Trans, ios: seq<Io>)
    requires Stable(t)
    ensures Stable(Continue(t, ios))
    decreases |ios|
  {
    if ios != [] {
      ResumeSettles(t, ios[0]);
      ContinueSettles(Resume(t, ios[0]), ios[1..]);
    }
  }

  /** In every run: reverse requests are sent only when no forward change was asked for or the forward
      update has succeeded, after the last forward request; the transaction reports success exactly
      when every requested direction was updated; and it never ends through an unexpected event. */
  lemma RunInOrder(fwd: Option<nat>, rev: Option<nat>, start: Env, ios: seq<Io>)
    requires fwd.Some? || rev.Some?
    ensures var t := Run(fwd, rev, start, ios);
            && SentInOrder(t)
            && (t.st.End? ==> t.ev.EndEvt? && (t.ncrStatus.Completed? <==> AllDone(t)))
            && (!t.st.End? ==> Waiting(t) && t.request == Some(KindOf(t.st)))
  {
    ModelSettles(NewTrans(fwd, rev), start);
    ContinueSettles(RunModel(NewTrans(fwd, rev), start), ios);
  }
}
