/** The first-fit scheduler of DHCP-DDNS: d2_update_mgr.cc.

    A request waits in the queue while a transaction for its DHCID is under way; a sweep reaps
    finished transactions and starts at most one new one.
 */
module UpdateMgr {
  import opened Text
  import opened DomainMatch
  import opened ReverseNames
  import opened Domains
  import opened QueueMgr

  /** The part of `D2CfgMgr` that transactions are made from. */
  datatype Config = Config(forward: Manager<Domain>, reverse: Manager<Domain>)

  /** A transaction: the request as it was accepted, the domain for each direction it will update
      (the request's own direction flags are cleared where updates are disabled, so a direction is
      live exactly when it has a domain), and whether its state model has ended. */
  datatype Transaction = Transaction(request: Ncr, forward: Option<Domain>, reverse: Option<Domain>, done: bool)

  /** The manager, with the histories of requests taken off the queue, dropped and finished. */
  datatype Updates = Updates(transactions: map<string, Transaction>, max: nat,
                             taken: seq<Ncr>, dropped: set<nat>, finished: set<nat>)

  /** What `makeTransaction` decides for a request. */
  datatype Plan = Start(forward: Option<Domain>, reverse: Option<Domain>) | Drop | Throws

  /** One direction of a request: not asked for or not enabled, served by a domain, unserved, or
      refused with an exception by the matching call. */
  datatype Direction = Off | Served(domain: Domain) | Unserved | Refused

  function ForwardDirection(cfg: Config, ncr: Ncr): Direction {
    if !ncr.forward || |cfg.forward.domains| == 0 then Off
    else if ncr.fqdn == "" then Refused
    else match Match(cfg.forward, ncr.fqdn)
      case Some(d) => Served(d)
      case None => Unserved
  }

  function ReverseDirection(cfg: Config, ncr: Ncr): Direction {
    if !ncr.reverse || |cfg.reverse.domains| == 0 then Off
    else if ncr.address.None? then Refused
    else match MatchReverse(cfg.reverse, ncr.address.value)
      case Some(d) => Served(d)
      case None => Unserved
  }

  function DomainOf(d: Direction): Option<Domain> {
    if d.Served? then Some(d.domain) else None
  }

  /** `makeTransaction` after its duplicate check: forward first, then reverse, then the count. */
  function MakePlan(cfg: Config, ncr: Ncr): Plan {
    var f := ForwardDirection(cfg, ncr);
    if f.Refused? then Throws
    else if f.Unserved? then Drop
    else
      var r := ReverseDirection(cfg, ncr);
      if r.Refused? then Throws
      else if r.Unserved? then Drop
      else if f.Off? && r.Off? then Drop
      else Start(DomainOf(f), DomainOf(r))
  }

  /** Remove the transactions whose models have ended. */
  function Reap(u: Updates): Updates {
    u.(transactions := map k | k in u.transactions && !u.transactions[k].done :: u.transactions[k],
       finished := u.finished + DoneIds(u.transactions))
  }

  function DoneIds(ts: map<string, Transaction>): set<nat> {
    set k | k in ts && ts[k].done :: ts[k].request.id
  }

  /** The first queued request whose DHCID is free, or the queue length. */
  function FirstEligible(requests: seq<Ncr>, busy: set<string>): (i: nat)
    ensures i <= |requests|
    ensures forall k :: 0 <= k < i ==> requests[k].dhcid in busy
    ensures i < |requests| ==> requests[i].dhcid !in busy
  {
    if requests == [] || requests[0].dhcid !in busy then 0
    else
      var i := FirstEligible(requests[1..], busy);
      assert forall k :: 1 <= k < |requests| ==> requests[k] == requests[1..][k - 1];
      1 + i
  }

  datatype Swept = Swept(queue: Queue, updates: Updates, threw: bool)

  /** Take request `i` off the queue and make a transaction for it. */
  function Take(q: Queue, u: Updates, cfg: Config, i: nat, endsAtOnce: bool): Swept
    requires i < |q.requests|
  {
    var ncr := q.requests[i];
    var q' := q.(requests := RemoveAt(q.requests, i));
    var u' := u.(taken := u.taken + [ncr]);
    match MakePlan(cfg, ncr)
    case Throws => Swept(q', u', true)
    case Drop => Swept(q', u'.(dropped := u.dropped + {ncr.id}), false)
    case Start(f, r) =>
      Swept(q', u'.(transactions := u.transactions[ncr.dhcid := Transaction(ncr, f, r, endsAtOnce)]), false)
  }

  function PickNextJob(q: Queue, u: Updates, cfg: Config, endsAtOnce: bool): Swept {
    var i := FirstEligible(q.requests, u.transactions.Keys);
    if i == |q.requests| then Swept(q, u, false) else Take(q, u, cfg, i, endsAtOnce)
  }

  /** `sweep`.  `endsAtOnce` says whether a transaction started now reaches its end state inside
      `startTransaction`, as one without a usable server does. */
  function Sweep(q: Queue, u: Updates, cfg: Config, endsAtOnce: bool): Swept {
    var r := Reap(u);
    if q.requests == [] || |r.transactions| >= r.max then Swept(q, r, false)
    else PickNextJob(q, r, cfg, endsAtOnce)
  }

  // ----------------------------------------------------------------- decisions of makeTransaction

  /** The request asks for a change in this direction and the configuration has updates enabled for it. */
  predicate ForwardWanted(cfg: Config, ncr: Ncr) {
    ncr.forward && |cfg.forward.domains| > 0
  }

  predicate ReverseWanted(cfg: Config, ncr: Ncr) {
    ncr.reverse && |cfg.reverse.domains| > 0
  }

  /** The domain that label stripping, or else the wild card, finds for a direction. */
  function ForwardFound(cfg: Config, ncr: Ncr): Option<Domain> {
    if ncr.fqdn == "" then None else Reference(cfg.forward, ncr.fqdn)
  }

  function ReverseFound(cfg: Config, ncr: Ncr): Option<Domain> {
    if ncr.address.None? then None else Reference(cfg.reverse, ZoneName(Host(ncr.address.value)))
  }

  lemma ForwardFinds(cfg: Config, ncr: Ncr)
    requires Consistent(cfg.forward)
    ensures var (f, d) := (ForwardFound(cfg, ncr), ForwardDirection(cfg, ncr));
            if !ForwardWanted(cfg, ncr) then d.Off?
            else if ncr.fqdn == "" then d.Refused?
            else if f.Some? then d == Served(f.value) else d.Unserved?
  {
    ShortCutAgrees(cfg.forward, ncr.fqdn);
  }

  lemma ReverseFinds(cfg: Config, ncr: Ncr)
    requires Consistent(cfg.reverse)
    ensures var (f, d) := (ReverseFound(cfg, ncr), ReverseDirection(cfg, ncr));
            if !ReverseWanted(cfg, ncr) then d.Off?
            else if ncr.address.None? then d.Refused?
            else if f.Some? then d == Served(f.value) else d.Unserved?
  {
    if ncr.address.Some? { ShortCutAgrees(cfg.reverse, ZoneName(Host(ncr.address.value))); }
  }

  /** Some direction is wanted and every wanted direction has a domain. */
  predicate Startable(cfg: Config, ncr: Ncr) {
    && (ForwardWanted(cfg, ncr) || ReverseWanted(cfg, ncr))
    && (ForwardWanted(cfg, ncr) ==> ForwardFound(cfg, ncr).Some?)
    && (ReverseWanted(cfg, ncr) ==> ReverseFound(cfg, ncr).Some?)
  }

  /** A transaction is started exactly when some direction is wanted and every wanted direction has a
      domain, and it then holds a domain for every wanted direction and for no other. */
  lemma PlanServesDirections(cfg: Config, ncr: Ncr)
    requires Consistent(cfg.forward) && Consistent(cfg.reverse)
    ensures MakePlan(cfg, ncr).Start? <==> Startable(cfg, ncr)
    ensures MakePlan(cfg, ncr).Start? ==>
              var p := MakePlan(cfg, ncr);
              && p.forward == (if ForwardWanted(cfg, ncr) then ForwardFound(cfg, ncr) else None)
              && p.reverse == (if ReverseWanted(cfg, ncr) then ReverseFound(cfg, ncr) else None)
  {
    ForwardFinds(cfg, ncr);
    ReverseFinds(cfg, ncr);
  }

  /** A request is thrown out exactly when a wanted direction cannot be looked up: forward with an empty
      name, or reverse with an unreadable address unless the forward name already found no domain.
      It is dropped exactly when nothing is wanted or the first wanted direction without a domain
      could be looked up. */
  lemma PlanFailsExactly(cfg: Config, ncr: Ncr)
    requires Consistent(cfg.forward) && Consistent(cfg.reverse)
    ensures MakePlan(cfg, ncr).Throws?
            <==> || (ForwardWanted(cfg, ncr) && ncr.fqdn == "")
                 || (&& ReverseWanted(cfg, ncr) && ncr.address.None?
                     && (ForwardWanted(cfg, ncr) ==> ForwardFound(cfg, ncr).Some?))
    ensures MakePlan(cfg, ncr).Drop?
            <==> || (!ForwardWanted(cfg, ncr) && !ReverseWanted(cfg, ncr))
                 || (ForwardWanted(cfg, ncr) && ncr.fqdn != "" && ForwardFound(cfg, ncr).None?)
                 || (&& ReverseWanted(cfg, ncr) && ncr.address.Some? && ReverseFound(cfg, ncr).None?
                     && (ForwardWanted(cfg, ncr) ==> ForwardFound(cfg, ncr).Some?))
  {
    ForwardFinds(cfg, ncr);
    ReverseFinds(cfg, ncr);
  }

  /** A forward change is served exactly by what label stripping or else the wild card finds. */
  lemma ForwardServedExactly(cfg: Config, ncr: Ncr, d: Domain)
    requires Consistent(cfg.forward)
    ensures ForwardDirection(cfg, ncr) == Served(d)
            <==> ncr.forward && |cfg.forward.domains| > 0 && ncr.fqdn != "" && Reference(cfg.forward, ncr.fqdn) == Some(d)
  {
    ShortCutAgrees(cfg.forward, ncr.fqdn);
  }

  /** A reverse change is served exactly by the zone of the longest prefix that contains the address,
      and unserved exactly when no zone contains it. */
  lemma ReverseServedExactly(cfg: Config, ncr: Ncr, zones: seq<Prefix>)
    requires cfg.reverse.wildcard.None? && NamedAfter(cfg.reverse.domains, zones)
    requires ncr.reverse && |cfg.reverse.domains| > 0 && ncr.address.Some?
    ensures var host := Host(ncr.address.value);
            match ReverseDirection(cfg, ncr)
            case Served(d) => exists k: nat :: Longest(zones, host, k) && d == cfg.reverse.domains[k].1
            case Unserved => forall j :: 0 <= j < |zones| ==> !Within(host, zones[j])
            case _ => false
  {
    MatchReverseIsLongestPrefix(cfg.reverse, zones, ncr.address.value);
  }

  // ----------------------------------------------------------------- order of service

  /** A sweep without room for a transaction, or without a request of a free client, only reaps. */
  lemma {:induction false} SweepOnlyReaps(q: Queue, u: Updates, cfg: Config, endsAtOnce: bool)
    requires || |Reap(u).transactions| >= u.max
             || forall k :: 0 <= k < |q.requests| ==> q.requests[k].dhcid in Reap(u).transactions
    ensures Sweep(q, u, cfg, endsAtOnce) == Swept(q, Reap(u), false)
  {
    var i := FirstEligible(q.requests, Reap(u).transactions.Keys);
    assert i < |q.requests| ==> q.requests[i].dhcid !in Reap(u).transactions;
  }

  /** The outcome of a sweep for the one request it took. */
  ghost predicate CarriedOut(s: Swept, u: Updates, ncr: Ncr, plan: Plan, endsAtOnce: bool) {
    match plan
    case Throws => s.threw && s.updates.transactions == u.transactions && s.updates.dropped == u.dropped
    case Drop => !s.threw && s.updates.transactions == u.transactions && s.updates.dropped == u.dropped + {ncr.id}
    case Start(f, r) =>
      && !s.threw && s.updates.dropped == u.dropped
      && s.updates.transactions.Keys == u.transactions.Keys + {ncr.dhcid}
      && (forall k :: k in u.transactions ==> s.updates.transactions[k] == u.transactions[k])
      && s.updates.transactions[ncr.dhcid] == Transaction(ncr, f, r, endsAtOnce)
  }

  /** A sweep with room for a transaction and a free client takes exactly one request, the first
      whose client is free, and carries out its plan beside the transactions under way; with nothing
      under way that is the front of the queue. */
  lemma {:induction false} SweepTakesFirstFree(q: Queue, u: Updates, cfg: Config, endsAtOnce: bool, j: nat)
    requires |Reap(u).transactions| < u.max
    requires j < |q.requests| && q.requests[j].dhcid !in Reap(u).transactions
    requires forall k :: 0 <= k < j ==> q.requests[k].dhcid in Reap(u).transactions
    ensures var s := Sweep(q, u, cfg, endsAtOnce);
            && s.queue.requests == RemoveAt(q.requests, j)
            && s.updates.taken == u.taken + [q.requests[j]]
            && CarriedOut(s, Reap(u), q.requests[j], MakePlan(cfg, q.requests[j]), endsAtOnce)
    ensures Reap(u).transactions == map[] ==> j == 0
  {
    var i := FirstEligible(q.requests, Reap(u).transactions.Keys);
    assert i == j;
  }

  // ----------------------------------------------------------------- the class

  /** `D2UpdateMgr`, updated in place together with the queue manager it draws from. */
  class D2UpdateMgr {
    const queueMgr: D2QueueMgr
    var transactionList: map<string, Transaction>
    var maxTransactions: nat
    ghost var taken: seq<Ncr>
    ghost var dropped: set<nat>
    ghost var finished: set<nat>

    ghost function Model(): Updates
      reads this
    {
      Updates(transactionList, maxTransactions, taken, dropped, finished)
    }

    /** The source throws on a maximum of zero. */
    constructor (queueMgr: D2QueueMgr, max: nat)
      requires 1 <= max
      ensures this.queueMgr == queueMgr
      ensures Model() == Updates(map[], max, [], {}, {})
    {
      this.queueMgr := queueMgr;
      transactionList, maxTransactions := map[], max;
      taken, dropped, finished := [], {}, {};
    }

    /** The loop that erases finished entries while walking the list. */
    method CheckFinishedTransactions()
      modifies this
      ensures Model() == Reap(old(Model()))
    {
      ghost var before := transactionList;
      var unseen := transactionList.Keys;
      while unseen != {}
        invariant unseen <= before.Keys
        invariant transactionList == map k | k in before && (k in unseen || !before[k].done) :: before[k]
        invariant maxTransactions == old(maxTransactions) && taken == old(taken) && dropped == old(dropped)
        invariant finished == old(finished)
        decreases unseen
      {
        var k :| k in unseen;
        if transactionList[k].done {
          transactionList := transactionList - {k};
        }
        unseen := unseen - {k};
      }
      finished := finished + DoneIds(before);
    }

    /** The scan by index for the first eligible entry.  The "already in progress" throw of
        `makeTransaction` is not among the outcomes: it cannot fire from here. */
    method PickJob(cfg: Config, endsAtOnce: bool) returns (threw: bool)
      modifies this, queueMgr
      ensures Swept(queueMgr.Model(), Model(), threw) == PickNextJob(old(queueMgr.Model()), old(Model()), cfg, endsAtOnce)
    {
      var queueCount := |queueMgr.ncrQueue|;
      var index := 0;
      while index < queueCount
        invariant 0 <= index <= queueCount == |queueMgr.ncrQueue|
        invariant queueMgr.Model() == old(queueMgr.Model()) && Model() == old(Model())
        invariant forall k :: 0 <= k < index ==> queueMgr.ncrQueue[k].dhcid in transactionList
      {
        var found := queueMgr.PeekAt(index);
        if found.value.dhcid !in transactionList {
          assert index == FirstEligible(queueMgr.ncrQueue, transactionList.Keys);
          var t := queueMgr.DequeueAt(index);
          ghost var alreadyInProgress;
          threw, alreadyInProgress := MakeTransaction(found.value, cfg, endsAtOnce);
          assert !alreadyInProgress;
          return;
        }
        index := index + 1;
      }
      threw := false;
    }

    /** The forward half of `makeTransaction`, with `matchForward` in it. */
    method ForwardServers(ncr: Ncr, cfg: Config) returns (d: Direction)
      ensures d == ForwardDirection(cfg, ncr)
    {
      d := Off;
      if ncr.forward && |cfg.forward.domains| > 0 {
        if ncr.fqdn == "" { return Refused; }
        var matched := Match(cfg.forward, ncr.fqdn);
        if matched.None? { return Unserved; }
        d := Served(matched.value);
      }
    }

    /** The reverse half of `makeTransaction`, with `matchReverse` in it. */
    method ReverseServers(ncr: Ncr, cfg: Config) returns (d: Direction)
      ensures d == ReverseDirection(cfg, ncr)
    {
      d := Off;
      if ncr.reverse && |cfg.reverse.domains| > 0 {
        if ncr.address.None? { return Refused; }
        var matched := MatchReverse(cfg.reverse, ncr.address.value);
        if matched.None? { return Unserved; }
        d := Served(matched.value);
      }
    }

    /** `makeTransaction`; the ghost result tells the "already in progress" throw from the others. */
    method MakeTransaction(ncr: Ncr, cfg: Config, endsAtOnce: bool) returns (threw: bool, ghost alreadyInProgress: bool)
      modifies this
      ensures alreadyInProgress <==> ncr.dhcid in old(transactionList)
      ensures alreadyInProgress ==> threw && Model() == old(Model())
      ensures !alreadyInProgress ==>
                && (threw <==> MakePlan(cfg, ncr).Throws?)
                && Model() == old(Model()).(
                     taken := old(taken) + [ncr],
                     dropped := old(dropped) + (if MakePlan(cfg, ncr).Drop? then {ncr.id} else {}),
                     transactions := match MakePlan(cfg, ncr)
                                     case Start(f, r) => old(transactionList)[ncr.dhcid := Transaction(ncr, f, r, endsAtOnce)]
                                     case _ => old(transactionList))
      ensures !alreadyInProgress && Consistent(cfg.forward) && Consistent(cfg.reverse) ==>
                && (ncr.dhcid in transactionList <==> Startable(cfg, ncr))
                && (ncr.dhcid in transactionList ==>
                      var t := transactionList[ncr.dhcid];
                      && t.request == ncr
                      && t.forward == (if ForwardWanted(cfg, ncr) then ForwardFound(cfg, ncr) else None)
                      && t.reverse == (if ReverseWanted(cfg, ncr) then ReverseFound(cfg, ncr) else None))
    {
      if Consistent(cfg.forward) && Consistent(cfg.reverse) { PlanServesDirections(cfg, ncr); }
      alreadyInProgress := false;
      if ncr.dhcid in transactionList {
        alreadyInProgress := true;
        return true, alreadyInProgress;
      }
      taken := taken + [ncr];
      var directionCount := 0;
      var f := ForwardServers(ncr, cfg);
      if f.Refused? { return true, false; }
      if f.Unserved? {
        dropped := dropped + {ncr.id};
        return false, false;
      }
      if f.Served? { directionCount := directionCount + 1; }
      var r := ReverseServers(ncr, cfg);
      if r.Refused? { return true, false; }
      if r.Unserved? {
        dropped := dropped + {ncr.id};
        return false, false;
      }
      if r.Served? { directionCount := directionCount + 1; }
      if directionCount == 0 {
        dropped := dropped + {ncr.id};
        return false, false;
      }
      transactionList := transactionList[ncr.dhcid := Transaction(ncr, DomainOf(f), DomainOf(r), endsAtOnce)];
      threw := false;
    }

    method SweepOnce(cfg: Config, endsAtOnce: bool) returns (threw: bool)
      modifies this, queueMgr
      ensures Swept(queueMgr.Model(), Model(), threw) == Sweep(old(queueMgr.Model()), old(Model()), cfg, endsAtOnce)
    {
      CheckFinishedTransactions();
      threw := false;
      if |queueMgr.ncrQueue| > 0 {
        if |transactionList| >= maxTransactions { return; }
        threw := PickJob(cfg, endsAtOnce);
      }
    }

    /** A limit is accepted exactly when it is positive and the list fits under it. */
    method SetMaxTransactions(max: nat) returns (threw: bool)
      modifies this
      ensures threw <==> max < 1 || max < |old(transactionList)|
      ensures Model() == if threw then old(Model()) else old(Model()).(max := max)
    {
      if max < 1 { return true; }
      if max < |transactionList| { return true; }
      maxTransactions := max;
      threw := false;
    }
  }
}
