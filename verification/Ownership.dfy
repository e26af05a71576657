/** Any number of add transactions against one zone, over a network that loses, delays and repeats.

    The server may process a transaction's outstanding request now, or any request at all that a
    client could have built, a removal or an old copy among them; answers reach the transactions in
    any order or not at all.
 */
module Ownership {
  import opened Text
  import opened QueueMgr
  import opened DnsUpdate
  import opened NameAdd
  import opened NameAddRuns

  /** A transaction at work for a lease, and the answer to its outstanding request, if the server has
      given one. */
  datatype Worker = Worker(lease: Ncr, trans: Trans, answer: Option<Rcode>)

  /** `commits` remembers, per transaction, the zone right after the server accepted its forward request. */
  datatype Net = Net(zone: Zone, workers: map<nat, Worker>, commits: map<nat, Zone>)

  datatype Happening =
    | Launch(id: nat, lease: Ncr, fwd: Option<nat>, rev: Option<nat>, env: Env)
    | ServeOutstanding(id: nat)
    | ServeCopy(lease: Ncr, kind: Kind)
    | Complete(id: nat, status: Status, env: Env)

  function LaunchStep(n: Net, id: nat, lease: Ncr, fwd: Option<nat>, rev: Option<nat>, env: Env): Net {
    if id in n.workers || (fwd.None? && rev.None?) then n
    else n.(workers := n.workers[id := Worker(lease, RunModel(NewTrans(fwd, rev), env), None)],
            commits := n.commits - {id})
  }

  /** A worker has a request out that could be built. */
  predicate Outstanding(n: Net, id: nat) {
    id in n.workers && Waiting(n.workers[id].trans) && n.workers[id].lease.address.Some?
  }

  function OutstandingKind(n: Net, id: nat): Kind
    requires Outstanding(n, id)
  {
    KindOf(n.workers[id].trans.st)
  }

  function ServeStep(n: Net, id: nat): Net {
    if !Outstanding(n, id) then n else
      var w := n.workers[id];
      var k := OutstandingKind(n, id);
      var (z, rc) := Serve(n.zone, Build(w.lease, k).value);
      n.(zone := z, workers := n.workers[id := w.(answer := Some(rc))],
         commits := if rc == NoError && IsForward(k) then n.commits[id := z] else n.commits)
  }

  /** An answer can only be delivered if it was given; losing it is always possible. */
  function CompleteStep(n: Net, id: nat, status: Status, env: Env): Net {
    if id !in n.workers || !Waiting(n.workers[id].trans) then n
    else
      var w := n.workers[id];
      if status.Success? && w.answer != Some(status.rcode) then n
      else n.(workers := n.workers[id := w.(trans := Resume(w.trans, Io(status, env)), answer := None)])
  }

  function Step(n: Net, h: Happening): Net {
    match h
    case Launch(id, lease, f, r, env) => LaunchStep(n, id, lease, f, r, env)
    case ServeOutstanding(id) => ServeStep(n, id)
    case ServeCopy(lease, k) =>
      if lease.address.None? then n else n.(zone := Serve(n.zone, Build(lease, k).value).0)
    case Complete(id, s, env) => CompleteStep(n, id, s, env)
  }

  function Run(n: Net, hs: seq<Happening>): Net
    decreases |hs|
  {
    if hs == [] then n else Run(Step(n, hs[0]), hs[1..])
  }

  // ----------------------------------------------------------------- a name stays with its client

  /** The request the server processes in this happening, if any. */
  function Processed(n: Net, h: Happening): Option<(Ncr, Kind)> {
    match h
    case ServeOutstanding(id) => if Outstanding(n, id) then Some((n.workers[id].lease, OutstandingKind(n, id))) else None
    case ServeCopy(lease, k) => if lease.address.Some? then Some((lease, k)) else None
    case _ => None
  }

  /** The happening is a request about this name. */
  predicate Concerns(n: Net, h: Happening, name: string) {
    var p := Processed(n, h);
    p.Some? && p.value.0.address.Some? && Subject(p.value.0, p.value.1) == name
  }

  /** The happening is a forward request of this client about this name. */
  predicate OwnersForward(n: Net, h: Happening, name: string, dhcid: string) {
    Concerns(n, h, name) && Processed(n, h).value.0.dhcid == dhcid && IsForward(Processed(n, h).value.1)
  }

  /** The happening is a reverse request whose subject is this name. */
  predicate ReverseOn(n: Net, h: Happening, name: string) {
    Concerns(n, h, name) && !IsForward(Processed(n, h).value.1)
  }

  /** The happening is the client's own removal of the name, and the server accepts it. */
  predicate GivenUp(n: Net, h: Happening, name: string, dhcid: string) {
    && OwnersForward(n, h, name, dhcid)
    && var (lease, k) := Processed(n, h).value;
       k.RemoveFwdRrs? && Serve(n.zone, Build(lease, k).value).1 == NoError
  }

  lemma StrangerChangesNothing(z: Zone, lease: Ncr, k: Kind, name: string, dhcid: string)
    requires lease.address.Some? && Owns(z, name, dhcid)
    requires Subject(lease, k) != name || (lease.dhcid != dhcid && IsForward(k))
    ensures At(Serve(z, Build(lease, k).value).0, name) == At(z, name)
  {
    if Subject(lease, k) != name {
      TouchesOnlySubject(z, lease, k, name);
    } else {
      StrangerRefused(z, lease, k, dhcid);
    }
  }

  lemma OthersLeaveName(n: Net, h: Happening, name: string, dhcid: string)
    requires Owns(n.zone, name, dhcid) && !OwnersForward(n, h, name, dhcid) && !ReverseOn(n, h, name)
    ensures At(Step(n, h).zone, name) == At(n.zone, name)
  {
    var p := Processed(n, h);
    if p.Some? {
      StrangerChangesNothing(n.zone, p.value.0, p.value.1, name, dhcid);
    }
  }

  /** The owner's own forward requests: only the removal of the name, and only when it is accepted,
      takes the client's DHCID off it. */
  lemma OwnerKeeps(z: Zone, lease: Ncr, k: Kind)
    requires lease.address.Some? && IsForward(k) && Owns(z, lease.fqdn, lease.dhcid)
    ensures var (z', rc) := Serve(z, Build(lease, k).value);
            Owns(z', lease.fqdn, lease.dhcid) <==> !(k.RemoveFwdRrs? && rc == NoError)
  {
    var m := Build(lease, k).value;
    if k.AddFwd? {
      AddOutcome(z, lease);
    } else if k.ReplaceFwd? {
      ReplaceOutcome(z, lease);
      assert ClientRr(lease.dhcid).rtype != AddressType(lease.address.value);
    } else {
      assert m.changes[1..] == [];
      assert ApplyAll(z, m.changes) == Apply(z, m.changes[0]);
    }
  }

  /** One step on an owned name, exactly: without a reverse request on it, the name stays with its
      client unless the client's own removal is accepted, and its records change only by a forward
      request of that client. */
  lemma StepOwns(n: Net, h: Happening, name: string, dhcid: string)
    requires Owns(n.zone, name, dhcid) && !ReverseOn(n, h, name)
    ensures Owns(Step(n, h).zone, name, dhcid) <==> !GivenUp(n, h, name, dhcid)
    ensures At(Step(n, h).zone, name) != At(n.zone, name) ==> OwnersForward(n, h, name, dhcid)
  {
    if OwnersForward(n, h, name, dhcid) {
      OwnerKeeps(n.zone, Processed(n, h).value.0, Processed(n, h).value.1);
    } else {
      OthersLeaveName(n, h, name, dhcid);
    }
  }

  /** In this run the owner's removal of the name is never accepted, and no reverse request has the
      name as its subject. */
  ghost predicate NeverGivenUp(n: Net, hs: seq<Happening>, name: string, dhcid: string)
    decreases |hs|
  {
    hs == [] || (&& !GivenUp(n, hs[0], name, dhcid) && !ReverseOn(n, hs[0], name)
                 && NeverGivenUp(Step(n, hs[0]), hs[1..], name, dhcid))
  }

  /** Once a name carries a client's DHCID, over any interleaving of any number of transactions, the
      client's own and everybody else's, with late and repeated copies of any request: the name is
      that client's in every later state until the client's own removal is accepted, and every step
      that changes a record of it is a forward request of that client. */
  lemma {:induction false} NameStaysWithOwner(n: Net, hs: seq<Happening>, name: string, dhcid: string, i: nat)
    requires Owns(n.zone, name, dhcid) && NeverGivenUp(n, hs, name, dhcid) && i <= |hs|
    ensures var m := Run(n, hs[..i]);
            && Owns(m.zone, name, dhcid)
            && (i < |hs| && At(Step(m, hs[i]).zone, name) != At(m.zone, name) ==> OwnersForward(m, hs[i], name, dhcid))
    decreases i
  {
    if i > 0 {
      StepOwns(n, hs[0], name, dhcid);
      assert hs[..i][0] == hs[0] && hs[..i][1..] == hs[1..][..i - 1];
      NameStaysWithOwner(Step(n, hs[0]), hs[1..], name, dhcid, i - 1);
    } else {
      assert hs[..0] == [];
      if hs != [] { StepOwns(n, hs[0], name, dhcid); }
    }
  }

  // ----------------------------------------------------------------- one client per name

  /** A name carries at most one DHCID. */
  predicate OneClient(z: Zone, name: string) {
    forall r, s :: r in OfType(At(z, name), DHCID) && s in OfType(At(z, name), DHCID) ==> r == s
  }

  /** No request of any kind gives a name a second DHCID. */
  lemma ServeKeepsOneClient(z: Zone, lease: Ncr, k: Kind, name: string)
    requires lease.address.Some? && OneClient(z, name)
    ensures OneClient(Serve(z, Build(lease, k).value).0, name)
  {
    var m := Build(lease, k).value;
    if Subject(lease, k) != name {
      TouchesOnlySubject(z, lease, k, name);
    } else if k.AddFwd? {
      AddOutcome(z, lease);
    } else if k.ReplaceFwd? {
      ReplaceOutcome(z, lease);
      var z' := Serve(z, m).0;
      forall r | r in OfType(At(z', name), DHCID) ensures r in OfType(At(z, name), DHCID) {
        assert r.rtype != AddressType(lease.address.value);
      }
    } else if k.ReplaceRev? {
      ReplaceRevOutcome(z, lease);
    } else {
      assert m.changes[1..] == [];
      assert ApplyAll(z, m.changes) == Apply(z, m.changes[0]);
      var z' := Serve(z, m).0;
      assert At(z', name) <= At(z, name);
      forall r | r in OfType(At(z', name), DHCID) ensures r in OfType(At(z, name), DHCID) {}
    }
  }

  /** In a zone with at most one DHCID per name every name has at most one owner at any time. */
  lemma {:induction false} OneClientAlways(n: Net, hs: seq<Happening>, name: string)
    requires OneClient(n.zone, name)
    ensures OneClient(Run(n, hs).zone, name)
    decreases |hs|
  {
    if hs != [] {
      var p := Processed(n, hs[0]);
      if p.Some? { ServeKeepsOneClient(n.zone, p.value.0, p.value.1, name); }
      OneClientAlways(Step(n, hs[0]), hs[1..], name);
    }
  }

  // ----------------------------------------------------------------- success is not imagined

  lemma {:induction false} ModelKeepsForward(t: Trans, env: Env)
    requires Transit(t) && !t.ev.IoCompleted?
    ensures RunModel(t, env).fwdDone == t.fwdDone
    decreases Rank(t.ev)
  {
    HandlerGood(t, env);
    HandlerBudget(t, env);
    HandlerKeepsForward(t, env);
    var t' := Handler(t, env);
    if !t'.st.End? && !t'.ev.Nop? { ModelKeepsForward(t', env); }
  }

  lemma HandlerKeepsForward(t: Trans, env: Env)
    requires Transit(t) && !t.ev.IoCompleted?
    ensures Handler(t, env).fwdDone == t.fwdDone
  {
  }

  /** The forward direction is marked done only by a NOERROR answer to a forward request. */
  lemma ForwardNeedsAnswer(t: Trans, io: Io)
    requires Settled(t) && Waiting(t) && Resume(t, io).fwdDone && !t.fwdDone
    ensures Forward(t.st) && io.status == Success(NoError)
  {
    var t1 := t.(status := io.status, ev := IoCompleted);
    HandlerGood(t1, io.env);
    HandlerBudget(t1, io.env);
    var t2 := Handler(t1, io.env);
    if !t2.st.End? && !t2.ev.Nop? { ModelKeepsForward(t2, io.env); }
    assert t2.fwdDone;
    assert Enter(t1) == t1;
  }

  /** The lease stands in the zone under its name, marked with its client. */
  predicate LeaseStands(z: Zone, lease: Ncr) {
    lease.address.Some? && AddressRr(lease.address.value) in At(z, lease.fqdn) && Owns(z, lease.fqdn, lease.dhcid)
  }

  /** The zone a transaction's forward request was committed to held the lease. */
  ghost predicate Committed(n: Net, id: nat) {
    id in n.workers && id in n.commits && LeaseStands(n.commits[id], n.workers[id].lease)
  }

  ghost predicate NetInv(n: Net) {
    forall id :: id in n.workers ==>
      var w := n.workers[id];
      && Stable(w.trans)
      && (w.trans.fwdDone ==> Committed(n, id))
      && (Waiting(w.trans) && Forward(w.trans.st) && w.answer == Some(NoError) ==> Committed(n, id))
  }

  lemma ForwardCommits(z: Zone, lease: Ncr, st: TState)
    requires lease.address.Some? && Forward(st) && Serve(z, Build(lease, KindOf(st)).value).1 == NoError
    ensures LeaseStands(Serve(z, Build(lease, KindOf(st)).value).0, lease)
  {
    var z' := Serve(z, Build(lease, KindOf(st)).value).0;
    if st.AddingFwd? {
      AddOutcome(z, lease);
    } else {
      ReplaceOutcome(z, lease);
      var t := AddressType(lease.address.value);
      assert AddressRr(lease.address.value) in OfType(At(z', lease.fqdn), t);
      assert ClientRr(lease.dhcid) in OfType(At(z, lease.fqdn), DHCID);
      assert ClientRr(lease.dhcid).rtype != t;
    }
  }

  lemma ServeKeepsCommitted(n: Net, id: nat, j: nat)
    requires Committed(n, j)
    ensures Committed(ServeStep(n, id), j)
  {
    if Outstanding(n, id) && j == id {
      var w := n.workers[id];
      if Forward(w.trans.st) && Serve(n.zone, Build(w.lease, KindOf(w.trans.st)).value).1 == NoError {
        ForwardCommits(n.zone, w.lease, w.trans.st);
      }
    }
  }

  lemma ServeCommits(n: Net, id: nat)
    requires Outstanding(n, id) && Forward(n.workers[id].trans.st)
    requires ServeStep(n, id).workers[id].answer == Some(NoError)
    ensures Committed(ServeStep(n, id), id)
  {
    ForwardCommits(n.zone, n.workers[id].lease, n.workers[id].trans.st);
  }

  lemma ServeKeepsInv(n: Net, id: nat)
    requires NetInv(n)
    ensures NetInv(ServeStep(n, id))
  {
    var n' := ServeStep(n, id);
    if Outstanding(n, id) {
      forall j | j in n'.workers
        ensures var w := n'.workers[j];
                && Stable(w.trans)
                && (w.trans.fwdDone ==> Committed(n', j))
                && (Waiting(w.trans) && Forward(w.trans.st) && w.answer == Some(NoError) ==> Committed(n', j))
      {
        if Committed(n, j) { ServeKeepsCommitted(n, id, j); }
        if j == id && Forward(n.workers[id].trans.st) && n'.workers[id].answer == Some(NoError) {
          ServeCommits(n, id);
        }
      }
    }
  }

  lemma {:induction false} CompleteKeepsInv(n: Net, id: nat, s: Status, env: Env)
    requires NetInv(n)
    ensures NetInv(CompleteStep(n, id, s, env))
  {
    var n' := CompleteStep(n, id, s, env);
    if n' != n {
      var w := n.workers[id];
      ResumeSettles(w.trans, Io(s, env));
      if n'.workers[id].trans.fwdDone && !w.trans.fwdDone {
        ForwardNeedsAnswer(w.trans, Io(s, env));
      }
    }
  }

  lemma {:induction false} LaunchKeepsInv(n: Net, id: nat, lease: Ncr, f: Option<nat>, r: Option<nat>, env: Env)
    requires NetInv(n)
    ensures NetInv(LaunchStep(n, id, lease, f, r, env))
  {
    if id !in n.workers && (f.Some? || r.Some?) {
      var t := NewTrans(f, r);
      ModelSettles(t, env);
      ModelKeepsForward(t, env);
    }
  }

  lemma {:induction false} RunKeepsInv(n: Net, hs: seq<Happening>)
    requires NetInv(n)
    ensures NetInv(Run(n, hs))
    decreases |hs|
  {
    if hs != [] {
      match hs[0]
      {
        case Launch(id, lease, f, r, env) => LaunchKeepsInv(n, id, lease, f, r, env);
        case ServeOutstanding(id) => ServeKeepsInv(n, id);
        case ServeCopy(lease, k) =>
        case Complete(id, s, env) => CompleteKeepsInv(n, id, s, env);
      }
      RunKeepsInv(Step(n, hs[0]), hs[1..]);
    }
  }

  /** A transaction that reports its forward change as done was answered by a server which, at that
      moment, had the lease in the zone under the client's DHCID; and reported success means this
      held for a forward change that was asked for. */
  lemma SuccessWasCommitted(zone: Zone, hs: seq<Happening>, id: nat)
    requires var n := Run(Net(zone, map[], map[]), hs);
             id in n.workers && (n.workers[id].trans.fwdDone || n.workers[id].trans.ncrStatus.Completed?)
    ensures var n := Run(Net(zone, map[], map[]), hs);
            n.workers[id].trans.fwd.Some? || n.workers[id].trans.fwdDone ==> Committed(n, id)
  {
    RunKeepsInv(Net(zone, map[], map[]), hs);
  }
}
