/** The configuration manager of d2_cfg_mgr.cc over d_cfg_mgr.cc: the context in force, which a parse
    replaces step by step and which an error or a mere check puts back.
 */
module D2CfgMgr {
  import opened Text
  import opened OrderedMap
  import opened ReverseNames
  import opened Domains
  import opened D2Config

  /** One call of `parseConfig`. */
  datatype Attempt = Attempt(config: Json, checkOnly: bool)

  /** The context in force after an attempt. */
  function Attempted(net: Net, c: Context, a: Attempt): Context {
    var r := Parse(net, a.config);
    if r.Ok? && !a.checkOnly then r.value else c
  }

  function AttemptAll(net: Net, c: Context, attempts: seq<Attempt>): Context
    decreases |attempts|
  {
    if attempts == [] then c
    else AttemptAll(net, Attempted(net, c, attempts[0]), attempts[1..])
  }

  /** Whatever is attempted, the context in force stays valid: its domains have servers and their keys
      are its own keys. */
  lemma {:induction false} AlwaysValid(net: Net, c: Context, attempts: seq<Attempt>)
    requires ContextValid(net, c)
    ensures ContextValid(net, AttemptAll(net, c, attempts))
    decreases |attempts|
  {
    if attempts != [] {
      if Parse(net, attempts[0].config).Ok? { ParsedIsValid(net, attempts[0].config); }
      AlwaysValid(net, Attempted(net, c, attempts[0]), attempts[1..]);
    }
  }

  /** Saving the context in force and loading it later restores it, whatever was attempted between. */
  lemma {:induction false} SaveAndLoad(net: Net, c: Context, attempts: seq<Attempt>)
    requires Lawful(net) && ContextValid(net, c)
    ensures AttemptAll(net, c, attempts + [Attempt(Element(net, c), false)]) == c
  {
    ValidReparsed(net, c);
    AttemptLast(net, c, attempts, Attempt(Element(net, c), false));
  }

  lemma {:induction false} AttemptLast(net: Net, c: Context, attempts: seq<Attempt>, a: Attempt)
    ensures AttemptAll(net, c, attempts + [a]) == Attempted(net, AttemptAll(net, c, attempts), a)
    decreases |attempts|
  {
    if attempts == [] {
      assert attempts + [a] == [a] && [a][1..] == [];
    } else {
      assert (attempts + [a])[1..] == attempts[1..] + [a];
      AttemptLast(net, Attempted(net, c, attempts[0]), attempts[1..], a);
    }
  }

  /** The attempt parses and is not only a check. */
  predicate Adopted(net: Net, a: Attempt) {
    Parse(net, a.config).Ok? && !a.checkOnly
  }

  /** The first attempt, and what is left. */
  lemma OneAttempt(net: Net, c: Context, attempts: seq<Attempt>) returns (next: Context)
    requires attempts != []
    ensures AttemptAll(net, c, attempts) == AttemptAll(net, next, attempts[1..])
    ensures if Adopted(net, attempts[0]) then Parse(net, attempts[0].config) == Ok(next) else next == c
  {
    next := Attempted(net, c, attempts[0]);
  }

  /** Checks and refused attempts leave the context in force alone. */
  lemma {:induction false} OthersChangeNothing(net: Net, c: Context, attempts: seq<Attempt>)
    requires forall i :: 0 <= i < |attempts| ==> !Adopted(net, attempts[i])
    ensures AttemptAll(net, c, attempts) == c
    decreases |attempts|
  {
    if attempts != [] {
      var next := OneAttempt(net, c, attempts);
      OthersChangeNothing(net, next, attempts[1..]);
    }
  }

  /** The context in force is that of the last attempt that parsed and was not only a check. */
  lemma {:induction false} LastAdoptedInForce(net: Net, c: Context, attempts: seq<Attempt>, i: nat)
    requires i < |attempts| && Adopted(net, attempts[i])
    requires forall j :: i < j < |attempts| ==> !Adopted(net, attempts[j])
    ensures Parse(net, attempts[i].config) == Ok(AttemptAll(net, c, attempts))
    decreases |attempts|
  {
    var next := OneAttempt(net, c, attempts);
    if i == 0 {
      OthersChangeNothing(net, next, attempts[1..]);
    } else {
      LastAdoptedInForce(net, next, attempts[1..], i - 1);
    }
  }

  /** The key list parser. */
  method ParseKeyList(net: Net, items: seq<Json>) returns (r: Result<Entries<TsigKey>>)
    ensures r == Collect(items, KeyParser(net), NameOfKey, [])
  {
    var keys: Entries<TsigKey> := [];
    var i := 0;
    assert items[0..] == items;
    while i < |items|
      invariant 0 <= i <= |items|
      invariant Collect(items, KeyParser(net), NameOfKey, []) == Collect(items[i..], KeyParser(net), NameOfKey, keys)
    {
      assert items[i..][0] == items[i] && items[i..][1..] == items[i + 1..];
      var key := ParseKey(net, items[i]);
      if key.Threw? { return Threw; }
      if Has(keys, key.value.name) { return Threw; }
      keys := Insert(keys, key.value.name, key.value);
      i := i + 1;
    }
    r := Ok(keys);
  }

  /** What the rest of a server list adds to the servers read so far. */
  function Appended(done: seq<DnsServer>, rest: Result<seq<DnsServer>>): Result<seq<DnsServer>> {
    if rest.Threw? then Threw else Ok(done + rest.value)
  }

  /** The server list parser. */
  method ParseServerList(net: Net, items: seq<Json>) returns (r: Result<seq<DnsServer>>)
    ensures r == Each(items, ServerParser(net))
  {
    var servers: seq<DnsServer> := [];
    var i := 0;
    ghost var all := Each(items, ServerParser(net));
    assert items[0..] == items && (all.Ok? ==> [] + all.value == all.value);
    while i < |items|
      invariant 0 <= i <= |items|
      invariant Each(items, ServerParser(net)) == Appended(servers, Each(items[i..], ServerParser(net)))
    {
      assert items[i..][0] == items[i] && items[i..][1..] == items[i + 1..];
      var server := ParseServer(net, items[i]);
      if server.Threw? { return Threw; }
      ghost var rest := Each(items[i + 1..], ServerParser(net));
      assert rest.Ok? ==> servers + ([server.value] + rest.value) == (servers + [server.value]) + rest.value;
      servers := servers + [server.value];
      i := i + 1;
    }
    assert servers + [] == servers;
    r := Ok(servers);
  }

  /** The domain parser. */
  method ParseOneDomain(net: Net, keys: Entries<TsigKey>, j: Json) returns (r: Result<Domain>)
    ensures r == ParseDomain(net, keys, j)
  {
    var name := GetString(j, Name);
    if name.Threw? { return Threw; }
    var keyName := GetString(j, KeyName);
    if keyName.Threw? { return Threw; }
    var key: Option<TsigKey> := None;
    if keyName.value != "" {
      key := FindKey(keys, keyName.value);
      if key.None? { return Threw; }
    }
    var items := GetList(j, DnsServers);
    if items.Threw? { return Threw; }
    var servers := ParseServerList(net, items.value);
    if servers.Threw? || |servers.value| == 0 { return Threw; }
    r := Ok(Domain(name.value, servers.value, key));
  }

  /** The domain list parser. */
  method ParseDomainList(net: Net, keys: Entries<TsigKey>, items: seq<Json>) returns (r: Result<Entries<Domain>>)
    ensures r == Collect(items, DomainParser(net, keys), NameOfDomain, [])
  {
    var domains: Entries<Domain> := [];
    var i := 0;
    assert items[0..] == items;
    while i < |items|
      invariant 0 <= i <= |items|
      invariant Collect(items, DomainParser(net, keys), NameOfDomain, [])
             == Collect(items[i..], DomainParser(net, keys), NameOfDomain, domains)
    {
      assert items[i..][0] == items[i] && items[i..][1..] == items[i + 1..];
      var domain := ParseOneDomain(net, keys, items[i]);
      if domain.Threw? { return Threw; }
      if Has(domains, domain.value.name) { return Threw; }
      domains := Insert(domains, domain.value.name, domain.value);
      i := i + 1;
    }
    r := Ok(domains);
  }

  /** The manager parser. */
  method ParseDomainMgr(net: Net, keys: Entries<TsigKey>, j: Json) returns (r: Result<Entries<Domain>>)
    ensures r == ParseManager(net, keys, j)
  {
    if !j.Map? { return Threw; }
    r := Ok([]);
    if DdnsDomains in j.fields {
      if !j.fields[DdnsDomains].List? { return Threw; }
      r := ParseDomainList(net, keys, j.fields[DdnsDomains].items);
    }
  }

  /** The scalar parameters, visited in any order. */
  method BuildParameters(net: Net, params: map<Field, Json>) returns (r: Result<Params>)
    ensures r == BuildParams(net, params)
  {
    var address: Option<Address> := None;
    var port, timeout := 0, 0;
    var rest := params.Keys;
    while rest != {}
      invariant rest <= params.Keys
      invariant forall k :: k in params && k !in rest ==> ParamOk(net, k, params[k])
      invariant address == if IpAddress in params && IpAddress !in rest then Some(ParseAddress(net, params[IpAddress]).value) else None
      invariant port == if Port in params && Port !in rest then params[Port].i else 0
      invariant timeout == if DnsServerTimeout in params && DnsServerTimeout !in rest then params[DnsServerTimeout].i else 0
      decreases |rest|
    {
      var k :| k in rest;
      if !ParamOk(net, k, params[k]) { return Threw; }
      if k == IpAddress {
        address := Some(ParseAddress(net, params[k]).value);
      } else if k == Port {
        port := params[k].i;
      } else if k == DnsServerTimeout {
        timeout := params[k].i;
      }
      rest := rest - {k};
    }
    if address.None? || port == 0 || timeout < 1 { return Threw; }
    r := Ok(Params(address.value, port, timeout));
  }

  /** The split into scalars and objects. */
  method Split(m: map<Field, Json>) returns (params: map<Field, Json>, objects: map<Field, Json>)
    ensures params == Scalars(m) && objects == Objects(m)
  {
    params, objects := map[], map[];
    var rest := m.Keys;
    while rest != {}
      invariant rest <= m.Keys
      invariant params == map k | k in m && k !in rest && Scalar(m[k]) :: m[k]
      invariant objects == map k | k in m && k !in rest && !Scalar(m[k]) :: m[k]
      decreases |rest|
    {
      var k :| k in rest;
      if Scalar(m[k]) {
        params := params[k := m[k]];
      } else {
        objects := objects[k := m[k]];
      }
      rest := rest - {k};
    }
  }

  class CfgMgr {
    const net: Net
    /** What a new context holds: the default parameters, no keys and no domains. */
    const blank: Context
    var context: Context

    constructor (net: Net, localhost: Address)
      ensures this.net == net && context == blank == Context(Params(localhost, 53001, 100), [], [], [])
    {
      this.net := net;
      blank := Context(Params(localhost, 53001, 100), [], [], []);
      context := Context(Params(localhost, 53001, 100), [], [], []);
    }

    method CommitKeys(objects: map<Field, Json>) returns (ok: bool)
      modifies this
      ensures var r := Named(objects, TsigKeys);
              var keys := if r.Ok? then ParseKeys(net, r.value) else Threw;
              if keys.Ok? then ok && context == old(context).(keys := keys.value) else !ok
    {
      if TsigKeys !in objects || !objects[TsigKeys].List? { return false; }
      var keys := ParseKeyList(net, objects[TsigKeys].items);
      if keys.Threw? { return false; }
      context := context.(keys := keys.value);
      ok := true;
    }

    method CommitForward(objects: map<Field, Json>) returns (ok: bool)
      modifies this
      ensures var r := Named(objects, ForwardDdns);
              var m := if r.Ok? then ParseManager(net, old(context).keys, r.value) else Threw;
              if m.Ok? then ok && context == old(context).(forward := m.value) else !ok
    {
      if ForwardDdns !in objects { return false; }
      var m := ParseDomainMgr(net, context.keys, objects[ForwardDdns]);
      if m.Threw? { return false; }
      context := context.(forward := m.value);
      ok := true;
    }

    method CommitReverse(objects: map<Field, Json>) returns (ok: bool)
      modifies this
      ensures var r := Named(objects, ReverseDdns);
              var m := if r.Ok? then ParseManager(net, old(context).keys, r.value) else Threw;
              if m.Ok? then ok && context == old(context).(reverse := m.value) else !ok
    {
      if ReverseDdns !in objects { return false; }
      var m := ParseDomainMgr(net, context.keys, objects[ReverseDdns]);
      if m.Threw? { return false; }
      context := context.(reverse := m.value);
      ok := true;
    }

    /** The steps between the reset of the context and the answer. */
    method Fill(m: map<Field, Json>) returns (ok: bool)
      modifies this
      ensures ok <==> ParseFull(net, m).Ok?
      ensures ok ==> context == ParseFull(net, m).value
    {
      var params, objects := Split(m);
      var p := BuildParameters(net, params);
      if p.Threw? { return false; }
      context := context.(params := p.value);
      ok := CommitKeys(objects);
      if !ok { return; }
      ok := CommitForward(objects);
      if !ok { return; }
      ok := CommitReverse(objects);
      if !ok { return; }
      ok := objects.Keys <= OBJECTS;
    }

    /** A parse: the context is rebuilt from an empty one, and put back after an error or a check. */
    method ParseConfig(config: Json, checkOnly: bool) returns (ok: bool)
      modifies this
      ensures ok <==> Parse(net, config).Ok?
      ensures context == Attempted(net, old(context), Attempt(config, checkOnly))
    {
      var original := context;
      context := blank;
      var m := AllDefaults(config);
      if m.Threw? {
        context := original;
        return false;
      }
      ok := Fill(m.value);
      if !ok || checkOnly {
        context := original;
      }
    }
  }
}
