/** From a parsed configuration to the transactions made from it: the managers a parse yields, the
    configuration of a running engine, and the domains its transactions are given.
 */
module Configured {
  import opened Text
  import opened DomainMatch
  import opened ReverseNames
  import opened Domains
  import opened QueueMgr
  import opened UpdateMgr
  import opened Process
  import C = D2Config

  /** The managers of a context: the parser makes a new one for each direction and sets its map once. */
  function ConfigFor(c: C.Context): Config {
    Config(SetDomains(Manager([], None), c.forward), SetDomains(Manager([], None), c.reverse))
  }

  /** The configuration comes from some text that parses. */
  ghost predicate Parsed(net: C.Net, cfg: Config) {
    exists config :: C.Parse(net, config).Ok? && cfg == ConfigFor(C.Parse(net, config).value)
  }

  /** The configuration of a process that has not been configured. */
  const BLANK := Config(Manager([], None), Manager([], None))

  /** A domain to which an update can be sent: it has a server, and its key has a name. */
  predicate Usable(d: Domain) {
    d.servers != [] && (d.key.Some? ==> d.key.value.name != "")
  }

  ghost predicate AllUsable(domains: DomainMatch.Domains<Domain>) {
    forall k :: 0 <= k < |domains| ==> Usable(domains[k].1)
  }

  /** What every parsed configuration is: each manager remembers its own wild card, and every domain
      can be sent to. */
  ghost predicate Sound(cfg: Config) {
    && Consistent(cfg.forward) && Consistent(cfg.reverse)
    && AllUsable(cfg.forward.domains) && AllUsable(cfg.reverse.domains)
  }

  lemma ParsedIsSound(net: C.Net, cfg: Config)
    requires Parsed(net, cfg)
    ensures Sound(cfg)
  {
    var config :| C.Parse(net, config).Ok? && cfg == ConfigFor(C.Parse(net, config).value);
    var c := C.Parse(net, config).value;
    C.ParsedIsValid(net, config);
    SetDomainsConsistent(Manager([], None), c.forward);
    SetDomainsConsistent(Manager([], None), c.reverse);
    DomainsUsable(net, c.keys, c.forward);
    DomainsUsable(net, c.keys, c.reverse);
  }

  lemma DomainsUsable(net: C.Net, keys: seq<(string, TsigKey)>, domains: seq<(string, Domain)>)
    requires C.DomainsValid(net, keys, domains)
    ensures AllUsable(domains)
  {
    forall k | 0 <= k < |domains| ensures Usable(domains[k].1) {
      assert C.DomainValid(net, keys, domains[k].1);
    }
  }

  /** An engine that is only ever configured from texts that parse has a sound configuration. */
  lemma {:induction false} ConfigurationStaysSound(net: C.Net, e: Engine, events: seq<Event>)
    requires Sound(e.cfg)
    requires forall i :: 0 <= i < |events| && events[i].Configure? ==> Parsed(net, events[i].newCfg)
    ensures Sound(Run(e, events).cfg)
    decreases |events|
  {
    if events != [] {
      if events[0].Configure? { ParsedIsSound(net, events[0].newCfg); }
      StepKeepsConfig(e, events[0]);
      ConfigurationStaysSound(net, Step(e, events[0]), events[1..]);
    }
  }

  lemma StepKeepsConfig(e: Engine, ev: Event)
    ensures Step(e, ev).cfg == e.cfg || (ev.Configure? && Step(e, ev).cfg == ev.newCfg)
  {
  }

  lemma {:induction false} NamedUsable(domains: DomainMatch.Domains<Domain>, name: string)
    requires AllUsable(domains)
    ensures FirstNamed(domains, name).Some? ==> Usable(FirstNamed(domains, name).value)
    ensures Lookup(domains, name).Some? ==> Usable(Lookup(domains, name).value)
  {
    if domains != [] {
      assert AllUsable(domains[1..]);
      NamedUsable(domains[1..], name);
      assert Usable(domains[0].1);
    }
  }

  lemma {:induction false} FoundUsable(domains: DomainMatch.Domains<Domain>, name: string)
    requires AllUsable(domains)
    ensures LabelSearch(domains, name).Some? ==> Usable(LabelSearch(domains, name).value)
    decreases |name|
  {
    NamedUsable(domains, name);
    var dot := FirstDot(name);
    if dot + 1 < |name| { FoundUsable(domains, name[dot + 1..]); }
  }

  lemma ReferenceUsable(m: Manager<Domain>, name: string)
    requires Consistent(m) && AllUsable(m.domains)
    ensures Reference(m, name).Some? ==> Usable(Reference(m, name).value)
  {
    FoundUsable(m.domains, name);
    NamedUsable(m.domains, WILDCARD);
  }

  /** In every run configured only from texts that parse, a transaction is started with the domains
      that label stripping or the wild card finds, at least one of them, and each has a server to send
      to. */
  lemma TransactionsCanBeSent(net: C.Net, maxQueue: nat, maxTransactions: nat, cfg: Config, events: seq<Event>, ncr: Ncr)
    requires cfg == BLANK || Parsed(net, cfg)
    requires forall i :: 0 <= i < |events| && events[i].Configure? ==> Parsed(net, events[i].newCfg)
    ensures var now := Run(InitialEngine(maxQueue, maxTransactions, cfg), events).cfg;
            MakePlan(now, ncr).Start? ==>
              var p := MakePlan(now, ncr);
              && (p.forward.Some? || p.reverse.Some?)
              && (p.forward.Some? ==> p.forward == Reference(now.forward, ncr.fqdn) && Usable(p.forward.value))
              && (p.reverse.Some? ==> && ncr.address.Some? && Usable(p.reverse.value)
                                      && p.reverse == Reference(now.reverse, ZoneName(Host(ncr.address.value))))
  {
    if cfg != BLANK { ParsedIsSound(net, cfg); }
    ConfigurationStaysSound(net, InitialEngine(maxQueue, maxTransactions, cfg), events);
    var now := Run(InitialEngine(maxQueue, maxTransactions, cfg), events).cfg;
    PlanServesDirections(now, ncr);
    ReferenceUsable(now.forward, ncr.fqdn);
    if ncr.address.Some? { ReferenceUsable(now.reverse, ZoneName(Host(ncr.address.value))); }
  }
}
