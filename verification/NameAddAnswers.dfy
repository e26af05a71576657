/** What every answer of a server does to an add transaction, as a table, and the run in which every
    answer is NOERROR. The other modules bound what a transaction may do; this one says what it does.
 */
module NameAddAnswers {
  import opened Text
  import opened DnsUpdate
  import opened NameAdd

  /** Building and sending requests works. */
  const SENDS := Env(true, true)

  // ----------------------------------------------------------------- states at rest

  /** The transaction has ended with this status. */
  predicate EndedWith(t: Trans, status: NcrStatus) {
    t.st.End? && t.ev.EndEvt? && t.ncrStatus == status
  }

  /** The transaction waits for the answer to its `n`-th try of this state's request to a server. */
  predicate Awaits(t: Trans, st: TState, server: nat, n: nat) {
    Waiting(t) && t.st == st && t.nextServer == server && t.attempts == n && t.request == Some(KindOf(st))
  }

  lemma {:induction false} OkEnds(t: Trans, env: Env)
    requires t.st.TransOk? && t.ev.UpdateOk?
    ensures RunModel(t, env) == Goto(t.(ncrStatus := NcrStatus.Completed), End, EndEvt)
  {
    RunsOn(t, env);
  }

  lemma {:induction false} FailEnds(t: Trans, env: Env)
    requires t.st.TransFailed? && (t.ev.UpdateFailed? || t.ev.NoMoreServers?)
    ensures RunModel(t, env) == Goto(t.(ncrStatus := FailedStatus), End, EndEvt)
  {
    RunsOn(t, env);
  }

  /** A sending state that was entered or told to try again sends its request and waits. */
  lemma {:induction false} SendsAndWaits(t: Trans)
    requires Forward(t.st) || t.st.ReplacingRev?
    requires t.ev.ServerSelected? || (t.ev.FqdnInUse? && t.st.ReplacingFwd?)
    requires t.onEntry || t.request == Some(KindOf(t.st))
    ensures var r := RunModel(t, SENDS);
            && Awaits(r, t.st, t.nextServer, if t.onEntry then 1 else t.attempts + 1)
            && r.sent == t.sent + [KindOf(t.st)]
            && r.fwdDone == t.fwdDone && r.revDone == t.revDone && r.serverCount == t.serverCount
            && r.fwd == t.fwd && r.rev == t.rev && r.ncrStatus == t.ncrStatus
  {
    RunsOn(t, SENDS);
  }

  /** A selecting state sends to the next server of its list, or fails the transaction. */
  lemma {:induction false} SelectsNext(t: Trans)
    requires (t.st.SelectingFwd? && t.fwd.Some?) || (t.st.SelectingRev? && t.rev.Some?)
    requires t.ev.SelectServer? || t.ev.ServerIoError?
    ensures var r := RunModel(t, SENDS);
            var st := if t.st.SelectingFwd? then AddingFwd else ReplacingRev;
            var count := if t.ev.ServerIoError? then t.serverCount else if t.st.SelectingFwd? then t.fwd.value else t.rev.value;
            var server := if t.ev.ServerIoError? then t.nextServer else 0;
            && r.fwdDone == t.fwdDone && r.revDone == t.revDone && r.fwd == t.fwd && r.rev == t.rev
            && if server < count
               then Awaits(r, st, server + 1, 1) && r.serverCount == count && r.sent == t.sent + [KindOf(st)] && r.ncrStatus == t.ncrStatus
               else EndedWith(r, FailedStatus) && r.sent == t.sent
  {
    RunsOn(t, SENDS);
    var t1 := Handler(t, SENDS);
    if t1.st.TransFailed? {
      FailEnds(t1, SENDS);
    } else {
      SendsAndWaits(t1);
    }
  }

  // ----------------------------------------------------------------- starting

  /** A started transaction has sent its first request to the first server of its first direction, or
      has failed for want of a server. */
  lemma {:induction false} StartsOnFirstServer(fwd: Option<nat>, rev: Option<nat>)
    requires fwd.Some? || rev.Some?
    ensures var t := RunModel(NewTrans(fwd, rev), SENDS);
            var (servers, st) := if fwd.Some? then (fwd.value, AddingFwd) else (rev.value, ReplacingRev);
            && t.fwd == fwd && t.rev == rev && !t.fwdDone && !t.revDone
            && if servers > 0 then Awaits(t, st, 1, 1) && t.sent == [KindOf(st)] && t.serverCount == servers && t.ncrStatus.Pending?
               else EndedWith(t, FailedStatus) && t.sent == []
  {
    var t := NewTrans(fwd, rev);
    RunsOn(t, SENDS);
    SelectsNext(Handler(t, SENDS));
  }

  // ----------------------------------------------------------------- answers

  /** The transaction with an answer in hand. */
  function Answered(t: Trans, status: Status): Trans {
    t.(status := status, ev := IoCompleted)
  }

  lemma {:induction false} ResumeIs(t: Trans, status: Status)
    requires Settled(t) && Waiting(t)
    ensures Resume(t, Io(status, SENDS)) == Rest(Handler(Answered(t, status), SENDS), SENDS)
    ensures Enter(Answered(t, status)) == Answered(t, status)
  {
    RunsOn(Answered(t, status), SENDS);
  }

  /** NOERROR to a forward request: the forward change is done, and the transaction is completed, or
      goes on to the first reverse server, or fails if there is none. */
  lemma {:induction false} ForwardNoError(t: Trans)
    requires Settled(t) && Waiting(t) && Forward(t.st)
    ensures var r := Resume(t, Io(Success(NoError), SENDS));
            && r.fwdDone && r.fwd == t.fwd && r.rev == t.rev
            && if t.rev.None? then EndedWith(r, NcrStatus.Completed) && r.sent == t.sent
               else if t.rev.value == 0 then EndedWith(r, FailedStatus) && r.sent == t.sent
               else Awaits(r, ReplacingRev, 1, 1) && r.sent == t.sent + [ReplaceRev] && !r.revDone
  {
    ResumeIs(t, Success(NoError));
    var t1 := Handler(Answered(t, Success(NoError)), SENDS);
    if t.rev.None? {
      OkEnds(t1, SENDS);
    } else {
      SelectsNext(t1);
    }
  }

  /** NOERROR to a reverse request completes the transaction. */
  lemma {:induction false} ReverseNoError(t: Trans)
    requires Settled(t) && Waiting(t) && t.st.ReplacingRev?
    ensures var r := Resume(t, Io(Success(NoError), SENDS));
            EndedWith(r, NcrStatus.Completed) && r.revDone && r.fwdDone == t.fwdDone && r.fwd == t.fwd && r.sent == t.sent
  {
    ResumeIs(t, Success(NoError));
    OkEnds(Handler(Answered(t, Success(NoError)), SENDS), SENDS);
  }

  /** YXDOMAIN to an add: the same server is asked to replace. */
  lemma {:induction false} AddFindsInUse(t: Trans)
    requires Settled(t) && Waiting(t) && t.st.AddingFwd?
    ensures var r := Resume(t, Io(Success(YxDomain), SENDS));
            Awaits(r, ReplacingFwd, t.nextServer, 1) && r.sent == t.sent + [ReplaceFwd] && !r.fwdDone
  {
    ResumeIs(t, Success(YxDomain));
    SendsAndWaits(Handler(Answered(t, Success(YxDomain)), SENDS));
  }

  /** NXDOMAIN to a replacement: the same server is asked to add. */
  lemma {:induction false} ReplaceFindsFree(t: Trans)
    requires Settled(t) && Waiting(t) && t.st.ReplacingFwd?
    ensures var r := Resume(t, Io(Success(NxDomain), SENDS));
            Awaits(r, AddingFwd, t.nextServer, 1) && r.sent == t.sent + [AddFwd] && !r.fwdDone
  {
    ResumeIs(t, Success(NxDomain));
    SendsAndWaits(Handler(Answered(t, Success(NxDomain)), SENDS));
  }

  /** Answers that end the transaction as failed: any other rcode, and a stopped IO service. */
  predicate Fatal(st: TState, status: Status) {
    || status.IoStopped?
    || (status.Success? && status.rcode != NoError
        && !(st.AddingFwd? && status.rcode == YxDomain) && !(st.ReplacingFwd? && status.rcode == NxDomain))
  }

  lemma {:induction false} FatalAnswer(t: Trans, status: Status)
    requires Settled(t) && Waiting(t) && Fatal(t.st, status)
    ensures var r := Resume(t, Io(status, SENDS));
            EndedWith(r, FailedStatus) && r.fwdDone == t.fwdDone && r.revDone == t.revDone && r.sent == t.sent
  {
    ResumeIs(t, status);
    FailEnds(Handler(Answered(t, status), SENDS), SENDS);
  }

  /** No usable answer. */
  predicate NoAnswer(status: Status) {
    status.Timeout? || status.OtherError? || status.InvalidResponse?
  }

  /** Without a usable answer the same server is tried again, up to three times in all; then the next
      server is tried, from the beginning of its direction; after the last the transaction fails. */
  lemma {:induction false} NoAnswerRetries(t: Trans, status: Status)
    requires Settled(t) && Waiting(t) && NoAnswer(status)
    ensures var r := Resume(t, Io(status, SENDS));
            var first := if Forward(t.st) then AddingFwd else ReplacingRev;
            && r.fwdDone == t.fwdDone && r.revDone == t.revDone
            && if t.attempts < 3 then Awaits(r, t.st, t.nextServer, t.attempts + 1) && r.sent == t.sent + [KindOf(t.st)]
               else if t.nextServer < t.serverCount then Awaits(r, first, t.nextServer + 1, 1) && r.sent == t.sent + [KindOf(first)]
               else EndedWith(r, FailedStatus) && r.sent == t.sent
  {
    ResumeIs(t, status);
    var t1 := Handler(Answered(t, status), SENDS);
    if t.attempts < 3 {
      SendsAndWaits(t1);
    } else {
      SelectsNext(t1);
    }
  }

  // ----------------------------------------------------------------- exactly when a direction is done

  /** Neither direction is marked done, and the reverse direction stays as requested. */
  predicate SameMarks(t: Trans, t': Trans) {
    t'.fwdDone == t.fwdDone && t'.revDone == t.revDone && t'.rev == t.rev
  }

  lemma SendMarks(t: Trans, k: Kind, env: Env)
    ensures SameMarks(t, BuildAndSend(Enter(t), k, env))
  {
  }

  lemma NextMarks(t: Trans, st: TState)
    ensures SameMarks(t, SelectNext(t, st))
  {
  }

  lemma SelectMarks(t: Trans, servers: Option<nat>, st: TState)
    ensures SameMarks(t, SelectingHandler(t, servers, st))
  {
    if t.ev.SelectServer? {
      if servers.Some? { NextMarks(t.(serverCount := servers.value, nextServer := 0), st); }
    } else if t.ev.ServerIoError? {
      NextMarks(t, st);
    }
  }

  lemma SendingMarks(t: Trans, env: Env)
    requires (Forward(t.st) || t.st.ReplacingRev?) && !t.ev.IoCompleted?
    ensures SameMarks(t, Handler(t, env))
  {
    var t' := Handler(t, env);
    if t' == Abort(Enter(t)) {
    } else {
      assert t' == BuildAndSend(Enter(t), KindOf(t.st), env);
      SendMarks(t, KindOf(t.st), env);
    }
  }

  /** Only an answer marks a direction as done. */
  lemma {:induction false} HandlerMarks(t: Trans, env: Env)
    requires !t.ev.IoCompleted?
    ensures SameMarks(t, Handler(t, env))
  {
    if Forward(t.st) || t.st.ReplacingRev? {
      SendingMarks(t, env);
    } else if t.st.SelectingFwd? {
      SelectMarks(t, t.fwd, AddingFwd);
    } else if t.st.SelectingRev? {
      SelectMarks(t, t.rev, ReplacingRev);
    }
  }

  lemma {:induction false} RunMarks(t: Trans, env: Env)
    requires !t.ev.IoCompleted?
    ensures SameMarks(t, RunModel(t, env))
    decreases Rank(t.ev)
  {
    RunsOn(t, env);
    HandlerMarks(t, env);
    var t' := Handler(t, env);
    if !t'.st.End? && !t'.ev.Nop? { RunMarks(t', env); }
  }

  /** What an answer marks is decided by the handler that takes it, not by what follows. */
  lemma {:induction false} AnswerMarks(t: Trans, io: Io) returns (t1: Trans)
    requires Settled(t) && Waiting(t)
    ensures t1 == Handler(Answered(t, io.status), io.env) && Enter(Answered(t, io.status)) == Answered(t, io.status)
    ensures SameMarks(t1, Resume(t, io))
    ensures Resume(t, io) == Rest(t1, io.env)
  {
    var a := Answered(t, io.status);
    RunsOn(a, io.env);
    t1 := Handler(a, io.env);
    if !t1.st.End? && !t1.ev.Nop? { RunMarks(t1, io.env); }
  }

  /** The forward change is marked done exactly by NOERROR to a forward request, whatever the
      environment does next. */
  lemma {:induction false} ForwardDoneExactly(t: Trans, io: Io)
    requires Settled(t) && Waiting(t) && Forward(t.st)
    ensures Resume(t, io).fwdDone <==> io.status == Success(NoError)
  {
    var t1 := AnswerMarks(t, io);
  }

  /** The reverse change is marked done, and the transaction completed, exactly by NOERROR to a reverse
      request. */
  lemma {:induction false} ReverseDoneExactly(t: Trans, io: Io)
    requires Stable(t) && Waiting(t) && t.st.ReplacingRev?
    ensures Resume(t, io).revDone <==> io.status == Success(NoError)
    ensures Resume(t, io).ncrStatus.Completed? <==> io.status == Success(NoError)
  {
    var t1 := AnswerMarks(t, io);
    ResumeSettles(t, io);
    if io.status == Success(NoError) { OkEnds(t1, io.env); }
  }

  // ----------------------------------------------------------------- a run without trouble

  /** Every server answers NOERROR. */
  const FINE := Io(Success(NoError), SENDS)

  /** With a server for each requested direction and only NOERROR answers, a transaction is completed
      after one exchange per direction, having sent exactly one request for each, forward first. */
  lemma {:induction false} AllGoesWell(fwd: Option<nat>, rev: Option<nat>)
    requires fwd.Some? || rev.Some?
    requires (fwd.Some? ==> fwd.value >= 1) && (rev.Some? ==> rev.value >= 1)
    ensures var sent := (if fwd.Some? then [AddFwd] else []) + (if rev.Some? then [ReplaceRev] else []);
            var t := Run(fwd, rev, SENDS, seq(|sent|, _ => FINE));
            EndedWith(t, NcrStatus.Completed) && t.sent == sent && AllDone(t)
  {
    var t0 := RunModel(NewTrans(fwd, rev), SENDS);
    StartsOnFirstServer(fwd, rev);
    ModelSettles(NewTrans(fwd, rev), SENDS);
    if fwd.Some? && rev.Some? {
      var t1 := BothGoWell(t0);
      assert [AddFwd] + [ReplaceRev] == [AddFwd, ReplaceRev];
    } else {
      OneExchange(t0);
      if fwd.Some? { ForwardNoError(t0); } else { ReverseNoError(t0); }
    }
  }

  lemma {:induction false} BothGoWell(t0: Trans) returns (t: Trans)
    requires Stable(t0) && Waiting(t0) && Forward(t0.st) && t0.rev.Some? && t0.rev.value >= 1
    ensures t == Continue(t0, seq(2, _ => FINE))
    ensures EndedWith(t, NcrStatus.Completed) && t.sent == t0.sent + [ReplaceRev] && AllDone(t)
  {
    var t1 := Resume(t0, FINE);
    ResumeSettles(t0, FINE);
    ForwardNoError(t0);
    ReverseNoError(t1);
    ResumeSettles(t1, FINE);
    var two := seq(2, _ => FINE);
    assert two == [FINE, FINE] && two[1..] == [FINE] && [FINE][1..] == [];
    t := Resume(t1, FINE);
    assert Continue(t1, [FINE]) == Continue(t, []) == t;
  }

  lemma {:induction false} OneExchange(t: Trans)
    ensures Continue(t, seq(1, _ => FINE)) == Resume(t, FINE)
  {
    var one := seq(1, _ => FINE);
    assert one == [FINE] && one[1..] == [];
  }
}
