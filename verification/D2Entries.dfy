/** What the entries of a DHCP-DDNS configuration mean: which entry each value is read from, which
    default stands in for an absent one, and what is refused. The parsers are those of `D2Config`.
 */
module D2Entries {
  import opened Text
  import opened OrderedMap
  import opened ReverseNames
  import opened Domains
  import opened D2Config

  /** The text of an entry, or the default when it is absent; nothing when it is not a text. */
  function TextOr(m: map<Field, Json>, k: Field, default: Option<string>): Option<string> {
    if k !in m then default else if m[k].Str? then Some(m[k].s) else None
  }

  function NumberOr(m: map<Field, Json>, k: Field, default: Option<int>): Option<int> {
    if k !in m then default else if m[k].Int? then Some(m[k].i) else None
  }

  // ----------------------------------------------------------------- lists

  /** Every item parses, no two to the same name, and none to a name that is taken. */
  ghost predicate Collectable<V>(items: seq<Json>, f: Json -> Result<V>, name: V -> string, done: Entries<V>) {
    && (forall i :: 0 <= i < |items| ==> f(items[i]).Ok? && !Has(done, name(f(items[i]).value)))
    && (forall i, j :: 0 <= i < j < |items| && f(items[i]).Ok? && f(items[j]).Ok? ==>
          name(f(items[i]).value) != name(f(items[j]).value))
  }

  lemma CollectableTail<V>(items: seq<Json>, f: Json -> Result<V>, name: V -> string, done: Entries<V>, v: V)
    requires items != [] && f(items[0]) == Ok(v) && !Has(done, name(v))
    ensures Collectable(items, f, name, done) <==> Collectable(items[1..], f, name, Insert(done, name(v), v))
  {
    var next, rest := Insert(done, name(v), v), items[1..];
    forall i | 0 <= i < |rest| && f(rest[i]).Ok?
      ensures Has(next, name(f(rest[i]).value)) <==> Has(done, name(f(rest[i]).value)) || name(f(rest[i]).value) == name(v) {
      InsertHas(done, name(v), v, name(f(rest[i]).value));
    }
    assert forall i :: 1 <= i < |items| ==> items[i] == rest[i - 1];
    assert forall i :: 0 <= i < |rest| ==> rest[i] == items[i + 1];
  }

  /** A list is collected exactly when every item parses and no two have the same name. */
  lemma {:induction false} CollectsExactly<V>(items: seq<Json>, f: Json -> Result<V>, name: V -> string, done: Entries<V>)
    ensures Collect(items, f, name, done).Ok? <==> Collectable(items, f, name, done)
    decreases |items|
  {
    if items != [] && f(items[0]).Ok? {
      var v := f(items[0]).value;
      if !Has(done, name(v)) {
        CollectableTail(items, f, name, done, v);
        CollectsExactly(items[1..], f, name, Insert(done, name(v), v));
      }
    }
  }

  /** Then it holds what it held before and every item under its name, and nothing else. */
  lemma {:induction false} CollectedContents<V>(items: seq<Json>, f: Json -> Result<V>, name: V -> string, done: Entries<V>, e: (string, V))
    requires Collect(items, f, name, done).Ok?
    ensures e in Collect(items, f, name, done).value
            <==> e in done || exists i :: 0 <= i < |items| && f(items[i]) == Ok(e.1) && e.0 == name(e.1)
    decreases |items|
  {
    if items != [] {
      var v, rest := f(items[0]).value, items[1..];
      var next := Insert(done, name(v), v);
      InsertedContents(done, name(v), v, e);
      CollectedContents(rest, f, name, next, e);
      assert forall i :: 0 <= i < |rest| ==> rest[i] == items[i + 1];
      if i :| 0 <= i < |items| && f(items[i]) == Ok(e.1) && e.0 == name(e.1) {
        if i > 0 { assert rest[i - 1] == items[i]; }
      }
    }
  }

  lemma InsertedContents<V>(m: Entries<V>, k: string, v: V, e: (string, V))
    requires !Has(m, k)
    ensures e in Insert(m, k, v) <==> e in m || e == (k, v)
  {
    var at := InsertSplices(m, k, v);
    assert m == m[..at] + m[at..];
  }

  // ----------------------------------------------------------------- keys

  /** `parse` after the defaults of an entry of the key list. */
  function ReadKey(net: Net, m: map<Field, Json>): Result<TsigKey> {
    var j :- SetDefaults(Map(m), KEY_DEFAULTS);
    ParseKey(net, j)
  }

  /** A key is read from its four entries, where absent digest bits are zero; it is refused exactly when
      one of the others is absent, one has the wrong type, or the key is not valid. */
  lemma {:induction false} KeyMeans(net: Net, m: map<Field, Json>, key: TsigKey)
    ensures ReadKey(net, m) == Ok(key)
            <==> && TextOr(m, Name, None) == Some(key.name)
                 && TextOr(m, Algorithm, None) == Some(key.algorithm)
                 && TextOr(m, Secret, None) == Some(key.secret)
                 && NumberOr(m, DigestBits, Some(0)).Some?
                 && key.digestBits == NumberOr(m, DigestBits, Some(0)).value % TWO32
                 && KeyValid(net, key)
  {
    var j := Map(KEY_DEFAULTS + m);
    assert GetString(j, Name).Ok? <==> TextOr(m, Name, None).Some?;
    assert GetString(j, Algorithm).Ok? <==> TextOr(m, Algorithm, None).Some?;
    assert GetString(j, Secret).Ok? <==> TextOr(m, Secret, None).Some?;
    assert GetInteger(j, DigestBits).Ok? <==> NumberOr(m, DigestBits, Some(0)).Some?;
  }

  /** The algorithms and the sizes of their digests in bits. */
  const DIGESTS: seq<(string, nat)> :=
    [("HMAC-MD5", 128), ("HMAC-SHA1", 160), ("HMAC-SHA224", 224), ("HMAC-SHA256", 256), ("HMAC-SHA384", 384), ("HMAC-SHA512", 512)]

  lemma FoldedAt(s: string, i: nat)
    requires i < |s|
    ensures Fold(s)[i] == Lower(s[i])
  {
  }

  lemma Differ(s: string, t: string, i: nat)
    requires |s| != |t| || (i < |s| && Lower(s[i]) != Lower(t[i]))
    ensures !IEquals(s, t)
  {
    assert |Fold(s)| == |s| && |Fold(t)| == |t|;
    if |s| == |t| { FoldedAt(s, i); FoldedAt(t, i); }
  }

  /** As section 3.1 of RFC 4635 has it, a digest may be truncated to no fewer than 80 bits and no fewer
      than half its size. */
  lemma {:induction false} LeastBitsExactly(i: nat)
    requires i < |DIGESTS|
    ensures var (name, size) := DIGESTS[i]; LeastBits(name) == Some(if size / 2 < 80 then 80 else size / 2)
  {
    var name := DIGESTS[i].0;
    if i >= 2 {
      Differ(name, "HMAC-MD5", 0);
      Differ(name, "HMAC-SHA1", 0);
      if i > 2 { Differ(name, "HMAC-SHA224", if i == 3 then 9 else 8); }
      if i > 3 { Differ(name, "HMAC-SHA256", 8); }
      if i > 4 { Differ(name, "HMAC-SHA384", 8); }
    }
  }

  /** No other algorithm is known. */
  lemma UnknownAlgorithm(name: string)
    ensures LeastBits(name).Some? <==> exists i :: 0 <= i < |DIGESTS| && IEquals(name, DIGESTS[i].0)
  {
    if LeastBits(name).Some? {
      if IEquals(name, "HMAC-MD5") { assert IEquals(name, DIGESTS[0].0); }
      else if IEquals(name, "HMAC-SHA1") { assert IEquals(name, DIGESTS[1].0); }
      else if IEquals(name, "HMAC-SHA224") { assert IEquals(name, DIGESTS[2].0); }
      else if IEquals(name, "HMAC-SHA256") { assert IEquals(name, DIGESTS[3].0); }
      else if IEquals(name, "HMAC-SHA384") { assert IEquals(name, DIGESTS[4].0); }
      else { assert IEquals(name, DIGESTS[5].0); }
    }
  }

  // ----------------------------------------------------------------- servers

  function ReadServer(net: Net, m: map<Field, Json>): Result<DnsServer> {
    var j :- SetDefaults(Map(m), SERVER_DEFAULTS);
    ParseServer(net, j)
  }

  /** A server is read from its address and its port, where an absent port is 53; it is refused exactly
      when the address is absent or unreadable, one has the wrong type, or there is a host name. */
  lemma {:induction false} ServerMeans(net: Net, m: map<Field, Json>, s: DnsServer)
    requires net.parse("") == None
    ensures ReadServer(net, m) == Ok(s)
            <==> && TextOr(m, Hostname, Some("")) == Some("")
                 && TextOr(m, IpAddress, None).Some? && net.parse(TextOr(m, IpAddress, None).value) == Some(s.address)
                 && NumberOr(m, Port, Some(53)).Some? && s.port == NumberOr(m, Port, Some(53)).value % TWO32
  {
    var j := Map(SERVER_DEFAULTS + m);
    assert GetString(j, Hostname).Ok? <==> TextOr(m, Hostname, Some("")).Some?;
    assert GetString(j, IpAddress).Ok? <==> TextOr(m, IpAddress, None).Some?;
    assert GetInteger(j, Port).Ok? <==> NumberOr(m, Port, Some(53)).Some?;
  }

  // ----------------------------------------------------------------- domains

  function ReadDomain(net: Net, keys: Entries<TsigKey>, m: map<Field, Json>): Result<Domain> {
    var j :- DomainDefaults(Map(m));
    ParseDomain(net, keys, j)
  }

  /** The server entries of a domain. */
  function ServerEntries(m: map<Field, Json>): Option<seq<Json>> {
    if DnsServers in m && m[DnsServers].List? then Some(m[DnsServers].items) else None
  }

  /** The completed list of server entries. */
  lemma {:induction false} CompletedServers(items: seq<Json>, i: nat)
    requires Each(items, Defaulter(SERVER_DEFAULTS)).Ok?
    ensures var full := Each(items, Defaulter(SERVER_DEFAULTS)).value;
            |full| == |items| && (i < |items| ==> items[i].Map? && full[i] == Map(SERVER_DEFAULTS + items[i].fields))
  {
    EachParsed(items, Defaulter(SERVER_DEFAULTS), i);
  }

  /** A domain that is read has the name of its name entry, one server for each entry of its server list,
      in order, at least one, and the key filed under its key name; no key name, or an empty one, means
      no key. */
  lemma {:induction false} DomainMeans(net: Net, keys: Entries<TsigKey>, m: map<Field, Json>, i: nat)
    requires Ascending(keys) && ReadDomain(net, keys, m).Ok?
    ensures var d := ReadDomain(net, keys, m).value;
            var keyName := TextOr(m, KeyName, Some(""));
            && TextOr(m, Name, None) == Some(d.name)
            && keyName.Some? && (if keyName.value == "" then d.key.None? else d.key.Some? && (keyName.value, d.key.value) in keys)
            && ServerEntries(m).Some? && |ServerEntries(m).value| == |d.servers| > 0
            && (i < |d.servers| ==>
                  var entry := ServerEntries(m).value[i];
                  entry.Map? && ReadServer(net, entry.fields) == Ok(d.servers[i]))
  {
    var d := ReadDomain(net, keys, m).value;
    var j := DomainDefaults(Map(m)).value;
    assert DnsServers in m;
    var items := m[DnsServers].items;
    CompletedServers(items, i);
    var full := Each(items, Defaulter(SERVER_DEFAULTS)).value;
    assert GetList(j, DnsServers) == Ok(full);
    EachParsed(full, ServerParser(net), i);
    assert GetString(j, Name).Ok? && GetString(j, KeyName).Ok?;
    FindKeyFinds(keys, GetString(j, KeyName).value);
  }

  // ----------------------------------------------------------------- parameters

  lemma ObjectsKeepScalars(g: map<Field, Json>, k: Field)
    requires ObjectDefaults(g).Ok? && k in PARAMETERS
    ensures (k in g <==> k in ObjectDefaults(g).value) && (k in g ==> ObjectDefaults(g).value[k] == g[k])
  {
  }

  lemma {:induction false} ParameterRead(net: Net, g: map<Field, Json>, k: Field)
    requires ObjectDefaults(g).Ok? && k in PARAMETERS && k in g && BuildParams(net, Scalars(ObjectDefaults(g).value)).Ok?
    ensures Scalar(g[k]) ==> ParamOk(net, k, g[k]) && Scalars(ObjectDefaults(g).value)[k] == g[k]
    ensures !Scalar(g[k]) ==> k !in Scalars(ObjectDefaults(g).value) && k in Objects(ObjectDefaults(g).value)
  {
    ObjectsKeepScalars(g, k);
    var s := Scalars(ObjectDefaults(g).value);
    if Scalar(g[k]) {
      assert k in s;
      assert ParamOk(net, k, s[k]);
    }
  }

  lemma NothingLeftOver(net: Net, full: map<Field, Json>)
    requires ParseFull(net, full).Ok?
    ensures Objects(full).Keys <= OBJECTS
    ensures BuildParams(net, Scalars(full)) == Ok(ParseFull(net, full).value.params)
  {
  }

  /** The two word parameters must be scalars: an object under one of these names is refused. */
  lemma {:induction false} WordRead(net: Net, g: map<Field, Json>, k: Field)
    requires ObjectDefaults(g).Ok? && ParseFull(net, ObjectDefaults(g).value).Ok?
    requires (k == NcrProtocol || k == NcrFormat) && k in g
    ensures ParamOk(net, k, g[k])
  {
    NothingLeftOver(net, ObjectDefaults(g).value);
    WordIsScalar(net, g, k);
  }

  lemma {:induction false} WordIsScalar(net: Net, g: map<Field, Json>, k: Field)
    requires ObjectDefaults(g).Ok? && BuildParams(net, Scalars(ObjectDefaults(g).value)).Ok?
    requires Objects(ObjectDefaults(g).value).Keys <= OBJECTS
    requires (k == NcrProtocol || k == NcrFormat) && k in g
    ensures ParamOk(net, k, g[k])
  {
    assert k !in OBJECTS;
    ParameterRead(net, g, k);
  }

  /** The three values that are kept, from the entries after the defaults. */
  lemma {:induction false} ValuesRead(net: Net, g: map<Field, Json>, p: Params)
    requires ObjectDefaults(g).Ok? && BuildParams(net, Scalars(ObjectDefaults(g).value)) == Ok(p)
    requires IpAddress in g && Port in g && DnsServerTimeout in g
    ensures g[IpAddress].Str? && net.parse(g[IpAddress].s) == Some(p.address) && AddressAllowed(net, p.address)
    ensures g[Port] == Int(p.port) && 1 <= p.port < TWO32
    ensures g[DnsServerTimeout] == Int(p.timeout) && 1 <= p.timeout < TWO32
  {
    ParameterRead(net, g, IpAddress);
    ParameterRead(net, g, Port);
    ParameterRead(net, g, DnsServerTimeout);
  }

  /** In a configuration that is read, the address, port and timeout are those of their entries, or
      127.0.0.1, 53001 and 100 where these are absent, and the protocol and format say UDP and JSON in any
      letter case, which is also what their absence means. */
  lemma {:induction false} ParametersMean(net: Net, m: map<Field, Json>)
    requires Parse(net, Map(m)).Ok?
    ensures var p := Parse(net, Map(m)).value.params;
            && TextOr(m, IpAddress, Some("127.0.0.1")).Some?
            && net.parse(TextOr(m, IpAddress, Some("127.0.0.1")).value) == Some(p.address)
            && net.show(p.address) != "0.0.0.0" && net.show(p.address) != "::"
            && NumberOr(m, Port, Some(53001)) == Some(p.port) && 1 <= p.port < TWO32
            && NumberOr(m, DnsServerTimeout, Some(100)) == Some(p.timeout) && 1 <= p.timeout < TWO32
  {
    var g := GLOBAL_DEFAULTS + m;
    NothingLeftOver(net, ObjectDefaults(g).value);
    DefaultsStandIn(net, m, Parse(net, Map(m)).value.params);
  }

  lemma {:induction false} DefaultsStandIn(net: Net, m: map<Field, Json>, p: Params)
    requires ObjectDefaults(GLOBAL_DEFAULTS + m).Ok?
    requires BuildParams(net, Scalars(ObjectDefaults(GLOBAL_DEFAULTS + m).value)) == Ok(p)
    ensures && TextOr(m, IpAddress, Some("127.0.0.1")).Some?
            && net.parse(TextOr(m, IpAddress, Some("127.0.0.1")).value) == Some(p.address)
            && net.show(p.address) != "0.0.0.0" && net.show(p.address) != "::"
            && NumberOr(m, Port, Some(53001)) == Some(p.port) && 1 <= p.port < TWO32
            && NumberOr(m, DnsServerTimeout, Some(100)) == Some(p.timeout) && 1 <= p.timeout < TWO32
  {
    ValuesRead(net, GLOBAL_DEFAULTS + m, p);
  }

  lemma {:induction false} WordsMean(net: Net, m: map<Field, Json>)
    requires Parse(net, Map(m)).Ok?
    ensures var protocol, format := TextOr(m, NcrProtocol, Some("UDP")), TextOr(m, NcrFormat, Some("JSON"));
            protocol.Some? && IEquals(protocol.value, "UDP") && format.Some? && IEquals(format.value, "JSON")
  {
    WordRead(net, GLOBAL_DEFAULTS + m, NcrProtocol);
    WordRead(net, GLOBAL_DEFAULTS + m, NcrFormat);
  }

  lemma {:induction false} EmptyDefaults()
    ensures AllDefaults(Map(map[])) == Ok(Assemble(GLOBAL_DEFAULTS, Map(map[]), Map(map[]), List([])))
  {
    var g := GLOBAL_DEFAULTS + map[];
    assert g == GLOBAL_DEFAULTS && TsigKeys !in g && ForwardDdns !in g && ReverseDdns !in g;
    assert g[TsigKeys := List([])][ForwardDdns := Map(map[])][ReverseDdns := Map(map[])]
        == Assemble(GLOBAL_DEFAULTS, Map(map[]), Map(map[]), List([]));
  }

  /** The empty configuration is read, as nothing but defaults. */
  lemma {:induction false} EmptyMeans(net: Net, a: Address)
    requires net.parse("127.0.0.1") == Some(a) && net.show(a) == "127.0.0.1"
    ensures Parse(net, Map(map[])) == Ok(Context(Params(a, 53001, 100), [], [], []))
  {
    EmptyDefaults();
    EmptyParams(net, a);
    Reparsed(net, GLOBAL_DEFAULTS, Map(map[]), Map(map[]), List([]), Context(Params(a, 53001, 100), [], [], []));
  }

  lemma {:induction false} EmptyParams(net: Net, a: Address)
    requires net.parse("127.0.0.1") == Some(a) && net.show(a) == "127.0.0.1"
    ensures BuildParams(net, GLOBAL_DEFAULTS) == Ok(Params(a, 53001, 100))
  {
    assert "127.0.0.1"[0] != "0.0.0.0"[0] && |"::"| == 2;
    var m := GLOBAL_DEFAULTS;
    assert ParamOk(net, IpAddress, m[IpAddress]) && ParamOk(net, Port, m[Port]);
    assert ParamOk(net, DnsServerTimeout, m[DnsServerTimeout]);
    assert ParamOk(net, NcrProtocol, m[NcrProtocol]) && ParamOk(net, NcrFormat, m[NcrFormat]);
    assert forall k :: k in m ==> ParamOk(net, k, m[k]);
  }
}
