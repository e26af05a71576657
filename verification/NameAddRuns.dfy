/** How long an add transaction can take: a bound on its exchanges with servers that holds in every
    run, and the one behaviour of the servers that defeats it.
 */
module NameAddRuns {
  import opened Text
  import opened DnsUpdate
  import opened NameAdd

  /** Exchanges still possible on the current server and state; a completion being handled no longer counts. */
  function TriesLeft(t: Trans): int {
    if t.ev.Nop? then MAX_UPDATE_TRIES_PER_SERVER + 1 - t.attempts
    else if t.onEntry then MAX_UPDATE_TRIES_PER_SERVER
    else MAX_UPDATE_TRIES_PER_SERVER - t.attempts
  }

  function ReverseCost(t: Trans): int {
    if t.rev.Some? then 3 * t.rev.value else 0
  }

  function ServersLeft(t: Trans, servers: Option<nat>): int {
    if t.ev.SelectServer? && servers.Some? then servers.value else t.serverCount - t.nextServer
  }

  /** Exchanges still possible while no server takes back that the name is in use: directions left,
      servers left, then tries left, each weighted by what it can still cost. */
  function Budget(t: Trans): int {
    match t.st
    case Ready => if t.fwd.Some? then 6 * t.fwd.value + ReverseCost(t) else ReverseCost(t)
    case SelectingFwd => 6 * ServersLeft(t, t.fwd) + ReverseCost(t)
    case SelectingRev => 3 * ServersLeft(t, t.rev)
    case AddingFwd => TriesLeft(t) + 3 + 6 * ServersLeft(t, t.fwd) + ReverseCost(t)
    case ReplacingFwd => TriesLeft(t) + 6 * ServersLeft(t, t.fwd) + ReverseCost(t)
    case ReplacingRev => TriesLeft(t) + 3 * ServersLeft(t, t.rev)
    case _ => 0
  }

  /** A server answers a replacement with "not in use" after the name was reported in use. */
  predicate TakesBack(st: TState, status: Status) {
    st.ReplacingFwd? && status == Success(NxDomain)
  }

  function Alternation(st: TState, status: Status): int {
    if TakesBack(st, status) then 1 else 0
  }

  lemma SelectNextBudget(t: Trans, st: TState)
    requires t.nextServer <= t.serverCount
    requires (t.st.SelectingFwd? && st.AddingFwd?) || (t.st.SelectingRev? && st.ReplacingRev?)
    ensures Budget(SelectNext(t, st))
         <= if t.st.SelectingFwd? then 6 * (t.serverCount - t.nextServer) + ReverseCost(t)
            else 3 * (t.serverCount - t.nextServer)
  {
  }

  lemma SelectBudget(t: Trans, env: Env)
    requires Transit(t) && (t.st.SelectingFwd? || t.st.SelectingRev?)
    ensures Budget(Handler(t, env)) <= Budget(t) && 0 <= Budget(t)
  {
    var (servers, st) := if t.st.SelectingFwd? then (t.fwd, AddingFwd) else (t.rev, ReplacingRev);
    assert Handler(t, env) == SelectingHandler(t, servers, st);
    if t.ev.SelectServer? {
      SelectNextBudget(t.(serverCount := servers.value, nextServer := 0), st);
    } else {
      SelectNextBudget(t, st);
    }
  }

  lemma RetryBudget(t: Trans, failTo: TState)
    requires Transit(t) && t.ev.IoCompleted? && (Forward(t.st) || t.st.ReplacingRev?)
    requires failTo == if Forward(t.st) then SelectingFwd else SelectingRev
    ensures Budget(RetryTransition(t, failTo)) <= Budget(t)
  {
  }

  lemma SendBudget(t: Trans, env: Env)
    requires Transit(t) && (Forward(t.st) || t.st.ReplacingRev?) && !t.ev.IoCompleted?
    ensures Budget(Handler(t, env)) <= Budget(t)
  {
    assert Handler(t, env) == BuildAndSend(Enter(t), KindOf(t.st), env);
    assert 0 <= Budget(t);
  }

  lemma AddingBudget(t: Trans, env: Env)
    requires Transit(t) && t.st.AddingFwd? && t.ev.IoCompleted?
    ensures Budget(Handler(t, env)) <= Budget(t)
  {
    assert Enter(t) == t;
    RetryBudget(t, SelectingFwd);
  }

  lemma ReplacingBudget(t: Trans, env: Env)
    requires Transit(t) && t.st.ReplacingFwd? && t.ev.IoCompleted?
    ensures Budget(Handler(t, env)) <= Budget(t) + 6 * Alternation(t.st, t.status)
  {
    assert Enter(t) == t;
    RetryBudget(t, SelectingFwd);
  }

  lemma ReverseBudget(t: Trans, env: Env)
    requires Transit(t) && t.st.ReplacingRev? && t.ev.IoCompleted?
    ensures Budget(Handler(t, env)) <= Budget(t)
  {
    assert Enter(t) == t;
    RetryBudget(t, SelectingRev);
  }

  lemma HandlerBudget(t: Trans, env: Env)
    requires Transit(t)
    ensures Budget(Handler(t, env)) <= Budget(t) + if t.ev.IoCompleted? then 6 * Alternation(t.st, t.status) else 0
    ensures !Handler(t, env).ev.IoCompleted? || Handler(t, env).st.End?
    ensures Budget(t) >= 0
  {
    if t.st.SelectingFwd? || t.st.SelectingRev? {
      SelectBudget(t, env);
    } else if Forward(t.st) || t.st.ReplacingRev? {
      if !t.ev.IoCompleted? { SendBudget(t, env); }
      else if t.st.AddingFwd? { AddingBudget(t, env); }
      else if t.st.ReplacingFwd? { ReplacingBudget(t, env); }
      else { ReverseBudget(t, env); }
    }
  }

  lemma {:induction false} ModelBudget(t: Trans, env: Env)
    requires Transit(t)
    ensures Budget(RunModel(t, env)) <= Budget(t) + if t.ev.IoCompleted? then 6 * Alternation(t.st, t.status) else 0
    decreases Rank(t.ev)
  {
    HandlerBudget(t, env);
    HandlerGood(t, env);
    var t' := Handler(t, env);
    if !t'.st.End? && !t'.ev.Nop? { ModelBudget(t', env); }
  }

  /** Every completed exchange uses up budget; only a server that takes "in use" back restores some. */
  lemma ResumeBudget(t: Trans, io: Io)
    requires Settled(t) && Waiting(t)
    ensures Budget(Resume(t, io)) + 1 <= Budget(t) + 6 * Alternation(t.st, io.status)
  {
    var t1 := t.(status := io.status, ev := IoCompleted);
    assert Budget(t1) == Budget(t) - 1;
    ModelBudget(t1, io.env);
  }

  /** How often, in this run, a server took "in use" back. */
  function Alternations(t: Trans, ios: seq<Io>): nat
    decreases |ios|
  {
    if ios == [] || !Waiting(t) then 0
    else (if TakesBack(t.st, ios[0].status) then 1 else 0) + Alternations(Resume(t, ios[0]), ios[1..])
  }

  lemma {:induction false} StillWaiting(t: Trans, ios: seq<Io>)
    requires Stable(t) && Waiting(Continue(t, ios))
    ensures |ios| + Budget(Continue(t, ios)) <= Budget(t) + 6 * Alternations(t, ios)
    ensures Budget(Continue(t, ios)) >= 1
    decreases |ios|
  {
    if ios == [] {
      assert WaitInv(t);
    } else {
      if !Waiting(t) { EndedStays(t, ios); }
      ResumeSettles(t, ios[0]);
      ResumeBudget(t, ios[0]);
      StillWaiting(Resume(t, ios[0]), ios[1..]);
    }
  }

  lemma {:induction false} EndedStays(t: Trans, ios: seq<Io>)
    requires !Waiting(t)
    ensures Continue(t, ios) == t
    decreases |ios|
  {
    if ios != [] { EndedStays(t, ios[1..]); }
  }

  /** The headline: with F forward and R reverse servers, and A occasions on which a server took back
      that the name is in use, an add transaction has ended after 6 F + 3 R + 6 A completed exchanges. */
  lemma AddTransactionEnds(fwd: Option<nat>, rev: Option<nat>, start: Env, ios: seq<Io>)
    requires fwd.Some? || rev.Some?
    requires var t := RunModel(NewTrans(fwd, rev), start);
             var servers := 6 * (if fwd.Some? then fwd.value else 0) + 3 * (if rev.Some? then rev.value else 0);
             |ios| >= servers + 6 * Alternations(t, ios)
    ensures Run(fwd, rev, start, ios).st.End?
  {
    var t0 := NewTrans(fwd, rev);
    var t := RunModel(t0, start);
    ModelSettles(t0, start);
    ModelBudget(t0, start);
    ContinueSettles(t, ios);
    if Waiting(Continue(t, ios)) { StillWaiting(t, ios); }
  }

  // ----------------------------------------------------------------- alternation is unbounded

  const IN_USE_ANSWER := Io(Success(YxDomain), Env(true, true))
  const FREE_ANSWER := Io(Success(NxDomain), Env(true, true))

  function PingPong(n: nat): seq<Io> {
    if n == 0 then [] else [IN_USE_ANSWER, FREE_ANSWER] + PingPong(n - 1)
  }

  lemma InUseMovesOn(t: Trans)
    requires Settled(t) && Waiting(t) && t.st.AddingFwd?
    ensures var t' := Resume(t, IN_USE_ANSWER); Settled(t') && Waiting(t') && t'.st.ReplacingFwd?
  {
    var t1 := t.(status := IN_USE_ANSWER.status, ev := IoCompleted);
    RunsOn(t1, IN_USE_ANSWER.env);
    var t2 := Goto(t1, ReplacingFwd, FqdnInUse);
    assert Handler(t1, IN_USE_ANSWER.env) == t2;
    HandlerGood(t1, IN_USE_ANSWER.env);
    HandlerGood(t2, IN_USE_ANSWER.env);
    RunsOn(t2, IN_USE_ANSWER.env);
  }

  lemma FreeMovesBack(t: Trans)
    requires Settled(t) && Waiting(t) && t.st.ReplacingFwd?
    ensures var t' := Resume(t, FREE_ANSWER); Settled(t') && Waiting(t') && t'.st.AddingFwd?
  {
    var t1 := t.(status := FREE_ANSWER.status, ev := IoCompleted);
    RunsOn(t1, FREE_ANSWER.env);
    var t2 := Goto(t1, AddingFwd, ServerSelected);
    assert Handler(t1, FREE_ANSWER.env) == t2;
    HandlerGood(t1, FREE_ANSWER.env);
    HandlerGood(t2, FREE_ANSWER.env);
    RunsOn(t2, FREE_ANSWER.env);
  }

  lemma ContinueTwo(t: Trans, a: Io, b: Io, rest: seq<Io>)
    ensures Continue(t, [a, b] + rest) == Continue(Resume(Resume(t, a), b), rest)
  {
    var ios := [a, b] + rest;
    assert ios[1..] == [b] + rest && ios[1..][1..] == rest;
    assert Continue(t, ios) == Continue(Resume(t, a), ios[1..]);
  }

  lemma {:induction false} PingPongWaits(t: Trans, n: nat)
    requires Settled(t) && Waiting(t) && t.st.AddingFwd?
    ensures Waiting(Continue(t, PingPong(n)))
    decreases n
  {
    if n > 0 {
      InUseMovesOn(t);
      var t1 := Resume(t, IN_USE_ANSWER);
      FreeMovesBack(t1);
      var t2 := Resume(t1, FREE_ANSWER);
      ContinueTwo(t, IN_USE_ANSWER, FREE_ANSWER, PingPong(n - 1));
      PingPongWaits(t2, n - 1);
    }
  }

  /** The bound cannot do without the alternations: a server that keeps changing its mind keeps a
      transaction going for as long as it likes, since every change starts a fresh set of tries. */
  lemma AlternationIsUnbounded(servers: nat, rev: Option<nat>, n: nat)
    requires servers >= 1
    ensures !Run(Some(servers), rev, Env(true, true), PingPong(n)).st.End?
  {
    var env := Env(true, true);
    var t0 := NewTrans(Some(servers), rev);
    ModelSettles(t0, env);
    RunsOn(t0, env);
    var t1 := Handler(t0, env);
    RunsOn(t1, env);
    var t2 := Handler(t1, env);
    RunsOn(t2, env);
    assert RunModel(t0, env).st.AddingFwd?;
    PingPongWaits(RunModel(t0, env), n);
  }
}
