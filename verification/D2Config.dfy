/** The DHCP-DDNS configuration: the parsers of d2_config.cc and d2_cfg_mgr.cc, the defaults of
    d2_simple_parser.cc, and the `toElement` methods that print a configuration back.
 */
module D2Config {
  import opened Text
  import opened OrderedMap
  import opened ReverseNames
  import opened Domains

  // ----------------------------------------------------------------- elements

  /** The names of configuration entries, written `ip-address`, `port` and so on in a file; any other
      text is `Other`. */
  datatype Field =
    | IpAddress | Port | DnsServerTimeout | NcrProtocol | NcrFormat
    | TsigKeys | ForwardDdns | ReverseDdns | UserContext
    | Name | Algorithm | Secret | DigestBits
    | DdnsDomains | KeyName | DnsServers | Hostname
    | Other(text: string)

  /** The configuration tree, `isc::data::Element`. */
  datatype Json =
    | Int(i: int)
    | Real(r: real)
    | Bool(b: bool)
    | Str(s: string)
    | Null
    | List(items: seq<Json>)
    | Map(fields: map<Field, Json>)

  function Get(scope: Json, name: Field): Result<Json> {
    if scope.Map? && name in scope.fields then Ok(scope.fields[name]) else Threw
  }

  function GetString(scope: Json, name: Field): Result<string> {
    var x :- Get(scope, name);
    if x.Str? then Ok(x.s) else Threw
  }

  function GetInteger(scope: Json, name: Field): Result<int> {
    var x :- Get(scope, name);
    if x.Int? then Ok(x.i) else Threw
  }

  function GetList(scope: Json, name: Field): Result<seq<Json>> {
    var x :- Get(scope, name);
    if x.List? then Ok(x.items) else Threw
  }

  const TWO32 := 0x1_0000_0000

  /** What this model leaves to libraries: reading and printing an address, and whether the DNS
      library can make a TSIG key from a name, algorithm, secret and digest size. */
  datatype Net = Net(parse: string -> Option<Address>, show: Address -> string, makes: TsigKey -> bool)

  /** An address some text denotes. */
  ghost predicate Readable(net: Net, a: Address) {
    exists s :: net.parse(s) == Some(a)
  }

  /** What the libraries owe: an address that was read reads the same when printed, and the empty
      string is no address. */
  ghost predicate Lawful(net: Net) {
    && net.parse("") == None
    && forall a :: Readable(net, a) ==> net.parse(net.show(a)) == Some(a)
  }

  // ----------------------------------------------------------------- keys

  /** The fewest digest bits of an algorithm, or nothing for an unknown one. */
  function LeastBits(algorithm: string): Option<nat> {
    if IEquals(algorithm, "HMAC-MD5") || IEquals(algorithm, "HMAC-SHA1") then Some(80)
    else if IEquals(algorithm, "HMAC-SHA224") then Some(112)
    else if IEquals(algorithm, "HMAC-SHA256") then Some(128)
    else if IEquals(algorithm, "HMAC-SHA384") then Some(192)
    else if IEquals(algorithm, "HMAC-SHA512") then Some(256)
    else None
  }

  predicate BitsAllowed(algorithm: string, bits: nat) {
    var least := LeastBits(algorithm);
    least.Some? && (bits == 0 || bits >= least.value)
  }

  predicate KeyValid(net: Net, k: TsigKey) {
    BitsAllowed(k.algorithm, k.digestBits) && k.digestBits < TWO32 && net.makes(k)
  }

  /** One TSIG key; the digest size is narrowed to 32 bits before it is checked. */
  function ParseKey(net: Net, j: Json): Result<TsigKey> {
    var name :- GetString(j, Name);
    var algorithm :- GetString(j, Algorithm);
    var bits :- GetInteger(j, DigestBits);
    var secret :- GetString(j, Secret);
    var key := TsigKey(name, algorithm, secret, bits % TWO32);
    if KeyValid(net, key) then Ok(key) else Threw
  }

  function KeyElement(k: TsigKey): Json {
    Map(map[Name := Str(k.name), Algorithm := Str(k.algorithm), Secret := Str(k.secret),
            DigestBits := Int(k.digestBits)])
  }

  lemma {:induction false} KeyReparsed(net: Net, k: TsigKey)
    requires KeyValid(net, k)
    ensures ParseKey(net, KeyElement(k)) == Ok(k)
  {
    var j := KeyElement(k);
    assert GetString(j, Name) == Ok(k.name);
    assert GetString(j, Algorithm) == Ok(k.algorithm);
    assert GetInteger(j, DigestBits) == Ok(k.digestBits);
    assert GetString(j, Secret) == Ok(k.secret);
  }

  // ----------------------------------------------------------------- servers

  /** One DNS server: an address and no host name, and a port narrowed to 32 bits. */
  function ParseServer(net: Net, j: Json): Result<DnsServer> {
    var hostname :- GetString(j, Hostname);
    var address :- GetString(j, IpAddress);
    var port :- GetInteger(j, Port);
    if (hostname == "") == (address == "") then Threw
    else if hostname != "" then Threw
    else
      var a := net.parse(address);
      if a.None? then Threw else Ok(DnsServer(a.value, port % TWO32))
  }

  function ServerElement(net: Net, s: DnsServer): Json {
    Map(map[Hostname := Str(""), IpAddress := Str(net.show(s.address)), Port := Int(s.port)])
  }

  ghost predicate ServerValid(net: Net, s: DnsServer) {
    Readable(net, s.address) && s.port < TWO32
  }

  lemma {:induction false} ServerReparsed(net: Net, s: DnsServer)
    requires Lawful(net) && ServerValid(net, s)
    ensures ParseServer(net, ServerElement(net, s)) == Ok(s)
  {
    assert net.parse(net.show(s.address)) == Some(s.address);
    var j := ServerElement(net, s);
    assert GetString(j, Hostname) == Ok("");
    assert GetString(j, IpAddress) == Ok(net.show(s.address));
    assert GetInteger(j, Port) == Ok(s.port);
  }

  lemma {:induction false} ServerParsed(net: Net, j: Json)
    requires ParseServer(net, j).Ok?
    ensures ServerValid(net, ParseServer(net, j).value)
  {
    var address := GetString(j, IpAddress).value;
    assert net.parse(address) == Some(ParseServer(net, j).value.address);
  }

  // ----------------------------------------------------------------- lists

  /** Every item of a list, parsed. */
  function Each<T>(items: seq<Json>, f: Json -> Result<T>): Result<seq<T>> {
    if items == [] then Ok([])
    else
      var head :- f(items[0]);
      var tail :- Each(items[1..], f);
      Ok([head] + tail)
  }

  /** Every item of a list, parsed and filed under its name; a name that is there already is an error. */
  function Collect<V>(items: seq<Json>, f: Json -> Result<V>, name: V -> string, done: Entries<V>): Result<Entries<V>>
    decreases |items|
  {
    if items == [] then Ok(done)
    else
      var v :- f(items[0]);
      if Has(done, name(v)) then Threw else Collect(items[1..], f, name, Insert(done, name(v), v))
  }

  function Printed<T>(xs: seq<T>, show: T -> Json): (r: seq<Json>)
    ensures |r| == |xs| && forall i :: 0 <= i < |xs| ==> r[i] == show(xs[i])
  {
    seq(|xs|, i requires 0 <= i < |xs| => show(xs[i]))
  }

  lemma {:induction false} EachPrinted<T>(xs: seq<T>, show: T -> Json, f: Json -> Result<T>)
    requires forall i :: 0 <= i < |xs| ==> f(show(xs[i])) == Ok(xs[i])
    ensures Each(Printed(xs, show), f) == Ok(xs)
    decreases |xs|
  {
    if xs != [] {
      assert Printed(xs, show)[1..] == Printed(xs[1..], show);
      EachPrinted(xs[1..], show, f);
      assert [xs[0]] + xs[1..] == xs;
    }
  }

  lemma {:induction false} EachParsed<T>(items: seq<Json>, f: Json -> Result<T>, i: nat)
    requires Each(items, f).Ok?
    ensures |Each(items, f).value| == |items|
    ensures i < |items| ==> f(items[i]) == Ok(Each(items, f).value[i])
    decreases |items|
  {
    if items != [] {
      EachParsed(items[1..], f, if i == 0 then 0 else i - 1);
    }
  }

  function Values<V>(m: Entries<V>): (r: seq<V>)
    ensures |r| == |m| && forall i :: 0 <= i < |m| ==> r[i] == m[i].1
  {
    seq(|m|, i requires 0 <= i < |m| => m[i].1)
  }

  /** A collection: ascending, and every entry under its own name. */
  predicate Filed<V>(m: Entries<V>, name: V -> string) {
    Ascending(m) && forall i :: 0 <= i < |m| ==> m[i].0 == name(m[i].1)
  }

  /** Inserting behind everything appends. */
  lemma {:induction false} InsertLast<V>(m: Entries<V>, k: string, v: V)
    requires forall i :: 0 <= i < |m| ==> Less(m[i].0, k)
    ensures !Has(m, k) && Insert(m, k, v) == m + [(k, v)]
    decreases |m|
  {
    LessIrreflexive(k);
    if m != [] {
      InsertLast(m[1..], k, v);
      if Less(k, m[0].0) { LessTransitive(k, m[0].0, k); }
      assert m == [m[0]] + m[1..];
    }
  }

  /** Collecting a printed collection gives it back. */
  lemma {:induction false} CollectPrinted<V>(m: Entries<V>, show: V -> Json, f: Json -> Result<V>, name: V -> string, i: nat)
    requires Filed(m, name) && i <= |m|
    requires forall k :: 0 <= k < |m| ==> f(show(m[k].1)) == Ok(m[k].1)
    ensures Collect(Printed(Values(m), show)[i..], f, name, m[..i]) == Ok(m)
    decreases |m| - i
  {
    var items := Printed(Values(m), show);
    if i == |m| {
      assert items[i..] == [] && m[..i] == m;
    } else {
      assert items[i..][0] == show(m[i].1) && items[i..][1..] == items[i + 1..];
      InsertLast(m[..i], m[i].0, m[i].1);
      assert m[..i] + [(m[i].0, m[i].1)] == m[..i + 1];
      CollectPrinted(m, show, f, name, i + 1);
    }
  }

  /** What collecting keeps: the order, the names, and whatever holds of every parsed item. */
  lemma {:induction false} CollectKeeps<V(!new)>(items: seq<Json>, f: Json -> Result<V>, name: V -> string, done: Entries<V>, p: V -> bool)
    requires Collect(items, f, name, done).Ok? && Filed(done, name)
    requires forall i :: 0 <= i < |done| ==> p(done[i].1)
    requires forall j :: f(j).Ok? ==> p(f(j).value)
    ensures var m := Collect(items, f, name, done).value;
            Filed(m, name) && forall i :: 0 <= i < |m| ==> p(m[i].1)
    decreases |items|
  {
    if items != [] {
      var v := f(items[0]).value;
      var next := Insert(done, name(v), v);
      InsertAscending(done, name(v), v);
      InsertGrows(done, name(v), v);
      forall i | 0 <= i < |next| ensures next[i].0 == name(next[i].1) && p(next[i].1) {
        assert next[i] in next;
      }
      CollectKeeps(items[1..], f, name, next, p);
    }
  }

  // ----------------------------------------------------------------- domains

  function FindKey(keys: Entries<TsigKey>, name: string): Option<TsigKey> {
    if keys == [] then None
    else if keys[0].0 == name then Some(keys[0].1)
    else FindKey(keys[1..], name)
  }

  function NameOfKey(k: TsigKey): string { k.name }

  function NameOfDomain(d: Domain): string { d.name }

  /** Looking a key up finds the one filed under the name, if there is one. */
  lemma {:induction false} FindKeyFinds(keys: Entries<TsigKey>, name: string)
    requires Ascending(keys)
    ensures FindKey(keys, name).Some? ==> (name, FindKey(keys, name).value) in keys
    ensures forall k :: (name, k) in keys ==> FindKey(keys, name) == Some(k)
    decreases |keys|
  {
    if keys != [] {
      FindKeyFinds(keys[1..], name);
      LessIrreflexive(name);
      forall k | (name, k) in keys ensures FindKey(keys, name) == Some(k) {
        var i :| 0 <= i < |keys| && keys[i] == (name, k);
        if i > 0 { assert keys[1..][i - 1] == (name, k) && Less(keys[0].0, keys[i].0); }
      }
    }
  }

  function ServerParser(net: Net): Json -> Result<DnsServer> {
    j => ParseServer(net, j)
  }

  function ServerShower(net: Net): DnsServer -> Json {
    s => ServerElement(net, s)
  }

  /** The key a domain names, if it names one. */
  function DomainKey(keys: Entries<TsigKey>, name: string): Result<Option<TsigKey>> {
    if name == "" then Ok(None)
    else
      var k := FindKey(keys, name);
      if k.None? then Threw else Ok(k)
  }

  function ParseServers(net: Net, j: Json): Result<seq<DnsServer>> {
    var items :- GetList(j, DnsServers);
    var servers :- Each(items, ServerParser(net));
    if servers == [] then Threw else Ok(servers)
  }

  function ParseDomain(net: Net, keys: Entries<TsigKey>, j: Json): Result<Domain> {
    var name :- GetString(j, Name);
    var keyName :- GetString(j, KeyName);
    var key :- DomainKey(keys, keyName);
    var servers :- ParseServers(net, j);
    Ok(Domain(name, servers, key))
  }

  /** The map of a domain; the server list is left out when empty and the key name when there is none. */
  function DomainJson(name: string, servers: seq<Json>, key: Option<string>): Json {
    Map(map[Name := Str(name)]
        + (if servers == [] then map[] else map[DnsServers := List(servers)])
        + (if key.None? then map[] else map[KeyName := Str(key.value)]))
  }

  function DomainElement(net: Net, d: Domain): Json {
    DomainJson(d.name, Printed(d.servers, ServerShower(net)), if d.key.None? then None else Some(d.key.value.name))
  }

  /** A domain has a server, and its key, if any, is one of the keys. */
  ghost predicate DomainValid(net: Net, keys: Entries<TsigKey>, d: Domain) {
    && d.servers != []
    && (forall i :: 0 <= i < |d.servers| ==> ServerValid(net, d.servers[i]))
    && (d.key.Some? ==> d.key.value.name != "" && (d.key.value.name, d.key.value) in keys)
  }

  lemma DomainParsed(net: Net, keys: Entries<TsigKey>, j: Json)
    requires Filed(keys, NameOfKey) && ParseDomain(net, keys, j).Ok?
    ensures DomainValid(net, keys, ParseDomain(net, keys, j).value)
  {
    var d := ParseDomain(net, keys, j).value;
    var name := GetString(j, KeyName).value;
    FindKeyFinds(keys, name);
    if d.key.Some? {
      var i :| 0 <= i < |keys| && keys[i] == (name, d.key.value);
    }
    var items := GetList(j, DnsServers).value;
    forall i | 0 <= i < |d.servers| ensures ServerValid(net, d.servers[i]) {
      EachParsed(items, ServerParser(net), i);
      ServerParsed(net, items[i]);
    }
  }

  /** What a printed domain looks like once its defaults are added. */
  function DomainElementFull(net: Net, d: Domain): Json {
    DomainJson(d.name, Printed(d.servers, ServerShower(net)), Some(if d.key.None? then "" else d.key.value.name))
  }

  lemma ServersReparsed(net: Net, d: Domain)
    requires Lawful(net) && d.servers != [] && forall i :: 0 <= i < |d.servers| ==> ServerValid(net, d.servers[i])
    ensures ParseServers(net, DomainElementFull(net, d)) == Ok(d.servers)
  {
    forall i | 0 <= i < |d.servers| ensures ServerParser(net)(ServerShower(net)(d.servers[i])) == Ok(d.servers[i]) {
      ServerReparsed(net, d.servers[i]);
    }
    EachPrinted(d.servers, ServerShower(net), ServerParser(net));
    assert GetList(DomainElementFull(net, d), DnsServers) == Ok(Printed(d.servers, ServerShower(net)));
  }

  lemma DomainReparsed(net: Net, keys: Entries<TsigKey>, d: Domain)
    requires Lawful(net) && Filed(keys, NameOfKey) && DomainValid(net, keys, d)
    ensures ParseDomain(net, keys, DomainElementFull(net, d)) == Ok(d)
  {
    var j := DomainElementFull(net, d);
    var name := if d.key.None? then "" else d.key.value.name;
    assert GetString(j, Name) == Ok(d.name);
    assert GetString(j, KeyName) == Ok(name);
    ServersReparsed(net, d);
    FindKeyFinds(keys, name);
  }

  // ----------------------------------------------------------------- domain lists

  function DomainParser(net: Net, keys: Entries<TsigKey>): Json -> Result<Domain> {
    j => ParseDomain(net, keys, j)
  }

  function KeyParser(net: Net): Json -> Result<TsigKey> {
    j => ParseKey(net, j)
  }

  /** The keys of a configuration. */
  function ParseKeys(net: Net, j: Json): Result<Entries<TsigKey>> {
    if !j.List? then Threw else Collect(j.items, KeyParser(net), NameOfKey, [])
  }

  /** The domains of one manager; a manager without a list has none. */
  function ParseManager(net: Net, keys: Entries<TsigKey>, j: Json): Result<Entries<Domain>> {
    if !j.Map? then Threw
    else if DdnsDomains !in j.fields then Ok([])
    else
      var items :- GetList(j, DdnsDomains);
      Collect(items, DomainParser(net, keys), NameOfDomain, [])
  }

  function DomainShower(net: Net): Domain -> Json {
    d => DomainElement(net, d)
  }

  function FullShower(net: Net): Domain -> Json {
    d => DomainElementFull(net, d)
  }

  function ManagerElement(net: Net, m: Entries<Domain>): Json {
    Map(map[DdnsDomains := List(Printed(Values(m), DomainShower(net)))])
  }

  function ManagerElementFull(net: Net, m: Entries<Domain>): Json {
    Map(map[DdnsDomains := List(Printed(Values(m), FullShower(net)))])
  }

  function KeysElement(m: Entries<TsigKey>): Json {
    List(Printed(Values(m), KeyElement))
  }

  ghost predicate KeysValid(net: Net, keys: Entries<TsigKey>) {
    Filed(keys, NameOfKey) && forall i :: 0 <= i < |keys| ==> KeyValid(net, keys[i].1)
  }

  ghost predicate DomainsValid(net: Net, keys: Entries<TsigKey>, m: Entries<Domain>) {
    Filed(m, NameOfDomain) && forall i :: 0 <= i < |m| ==> DomainValid(net, keys, m[i].1)
  }

  lemma KeysParsed(net: Net, j: Json)
    requires ParseKeys(net, j).Ok?
    ensures KeysValid(net, ParseKeys(net, j).value)
  {
    CollectKeeps(j.items, KeyParser(net), NameOfKey, [], k => KeyValid(net, k));
  }

  lemma KeysReparsed(net: Net, keys: Entries<TsigKey>)
    requires KeysValid(net, keys)
    ensures ParseKeys(net, KeysElement(keys)) == Ok(keys)
  {
    forall i | 0 <= i < |keys| ensures KeyParser(net)(KeyElement(keys[i].1)) == Ok(keys[i].1) {
      KeyReparsed(net, keys[i].1);
    }
    CollectPrinted(keys, KeyElement, KeyParser(net), NameOfKey, 0);
    assert keys[..0] == [];
    assert Printed(Values(keys), KeyElement)[0..] == Printed(Values(keys), KeyElement);
  }

  lemma DomainsParsed(net: Net, keys: Entries<TsigKey>, j: Json)
    requires KeysValid(net, keys) && ParseManager(net, keys, j).Ok?
    ensures DomainsValid(net, keys, ParseManager(net, keys, j).value)
  {
    if DdnsDomains in j.fields {
      CollectDomains(net, GetList(j, DdnsDomains).value, keys, []);
    }
  }

  lemma {:induction false} CollectDomains(net: Net, items: seq<Json>, keys: Entries<TsigKey>, done: Entries<Domain>)
    requires KeysValid(net, keys) && DomainsValid(net, keys, done)
    requires Collect(items, DomainParser(net, keys), NameOfDomain, done).Ok?
    ensures DomainsValid(net, keys, Collect(items, DomainParser(net, keys), NameOfDomain, done).value)
    decreases |items|
  {
    if items != [] {
      var d := ParseDomain(net, keys, items[0]).value;
      DomainParsed(net, keys, items[0]);
      var next := Insert(done, d.name, d);
      InsertAscending(done, d.name, d);
      InsertGrows(done, d.name, d);
      forall i | 0 <= i < |next| ensures next[i].0 == NameOfDomain(next[i].1) && DomainValid(net, keys, next[i].1) {
        assert next[i] in next;
      }
      CollectDomains(net, items[1..], keys, next);
    }
  }

  lemma DomainsReparsed(net: Net, keys: Entries<TsigKey>, m: Entries<Domain>)
    requires Lawful(net) && KeysValid(net, keys) && DomainsValid(net, keys, m)
    ensures ParseManager(net, keys, ManagerElementFull(net, m)) == Ok(m)
  {
    forall i | 0 <= i < |m| ensures DomainParser(net, keys)(FullShower(net)(m[i].1)) == Ok(m[i].1) {
      DomainReparsed(net, keys, m[i].1);
    }
    CollectPrinted(m, FullShower(net), DomainParser(net, keys), NameOfDomain, 0);
    var items := Printed(Values(m), FullShower(net));
    assert m[..0] == [] && items[0..] == items;
    assert GetList(ManagerElementFull(net, m), DdnsDomains) == Ok(items);
  }

  // ----------------------------------------------------------------- defaults

  const GLOBAL_DEFAULTS: map<Field, Json> :=
    map[IpAddress := Str("127.0.0.1"), Port := Int(53001), DnsServerTimeout := Int(100),
        NcrProtocol := Str("UDP"), NcrFormat := Str("JSON")]

  const KEY_DEFAULTS: map<Field, Json> := map[DigestBits := Int(0)]

  const DOMAIN_DEFAULTS: map<Field, Json> := map[KeyName := Str("")]

  const SERVER_DEFAULTS: map<Field, Json> := map[Hostname := Str(""), Port := Int(53)]

  /** Defaults for what a map does not say. */
  function SetDefaults(j: Json, table: map<Field, Json>): (r: Result<Json>)
    ensures r.Ok? ==> r.value.Map?
  {
    if !j.Map? then Threw else Ok(Map(table + j.fields))
  }

  function Defaulter(table: map<Field, Json>): Json -> Result<Json> {
    j => SetDefaults(j, table)
  }

  function DomainDefaults(j: Json): Result<Json> {
    var d :- SetDefaults(j, DOMAIN_DEFAULTS);
    if DnsServers !in d.fields then Ok(d)
    else
      var items :- GetList(d, DnsServers);
      var full :- Each(items, Defaulter(SERVER_DEFAULTS));
      Ok(Map(d.fields[DnsServers := List(full)]))
  }

  function ManagerDefaults(j: Json): Result<Json> {
    if !j.Map? then Threw
    else if DdnsDomains !in j.fields then Ok(j)
    else
      var items :- GetList(j, DdnsDomains);
      var full :- Each(items, DomainDefaults);
      Ok(Map(j.fields[DdnsDomains := List(full)]))
  }

  function KeysDefaults(j: Json): Result<Json> {
    if !j.List? then Threw
    else
      var full :- Each(j.items, Defaulter(KEY_DEFAULTS));
      Ok(List(full))
  }

  /** Defaults inside the keys and the managers, of which absent ones become empty. */
  function ObjectDefaults(g: map<Field, Json>): Result<map<Field, Json>> {
    var keys :- if TsigKeys in g then KeysDefaults(g[TsigKeys]) else Ok(List([]));
    var forward :- if ForwardDdns in g then ManagerDefaults(g[ForwardDdns]) else Ok(Map(map[]));
    var reverse :- if ReverseDdns in g then ManagerDefaults(g[ReverseDdns]) else Ok(Map(map[]));
    Ok(g[TsigKeys := keys][ForwardDdns := forward][ReverseDdns := reverse])
  }

  /** All defaults: the scalars first, then inside the objects. */
  function AllDefaults(config: Json): Result<map<Field, Json>> {
    if !config.Map? then Threw else ObjectDefaults(GLOBAL_DEFAULTS + config.fields)
  }

  lemma MergeBelow(a: map<Field, Json>, b: map<Field, Json>)
    requires a.Keys <= b.Keys
    ensures a + b == b
  {
  }

  /** Adding defaults to a list of elements that lack nothing. */
  lemma {:induction false} EachUnchanged(items: seq<Json>, f: Json -> Result<Json>)
    requires forall i :: 0 <= i < |items| ==> f(items[i]) == Ok(items[i])
    ensures Each(items, f) == Ok(items)
    decreases |items|
  {
    if items != [] {
      EachUnchanged(items[1..], f);
      assert [items[0]] + items[1..] == items;
    }
  }

  lemma KeysElementComplete(keys: Entries<TsigKey>)
    ensures KeysDefaults(KeysElement(keys)) == Ok(KeysElement(keys))
  {
    var items := Printed(Values(keys), KeyElement);
    forall i | 0 <= i < |items| ensures Defaulter(KEY_DEFAULTS)(items[i]) == Ok(items[i]) {
      MergeBelow(KEY_DEFAULTS, items[i].fields);
    }
    EachUnchanged(items, Defaulter(KEY_DEFAULTS));
  }

  lemma ServersComplete(net: Net, servers: seq<DnsServer>)
    ensures var items := Printed(servers, ServerShower(net)); Each(items, Defaulter(SERVER_DEFAULTS)) == Ok(items)
  {
    var items := Printed(servers, ServerShower(net));
    forall i | 0 <= i < |items| ensures Defaulter(SERVER_DEFAULTS)(items[i]) == Ok(items[i]) {
      MergeBelow(SERVER_DEFAULTS, items[i].fields);
    }
    EachUnchanged(items, Defaulter(SERVER_DEFAULTS));
  }

  lemma DomainMerged(name: string, servers: seq<Json>, key: Option<string>)
    ensures DOMAIN_DEFAULTS + DomainJson(name, servers, key).fields
         == DomainJson(name, servers, Some(if key.None? then "" else key.value)).fields
  {
  }

  lemma SameUpdate(m: map<Field, Json>, k: Field)
    requires k in m
    ensures m[k := m[k]] == m
  {
  }

  lemma DomainCompleted(name: string, servers: seq<Json>, key: Option<string>)
    requires servers != [] && Each(servers, Defaulter(SERVER_DEFAULTS)) == Ok(servers)
    ensures DomainDefaults(DomainJson(name, servers, key))
         == Ok(DomainJson(name, servers, Some(if key.None? then "" else key.value)))
  {
    var full := DomainJson(name, servers, Some(if key.None? then "" else key.value));
    DomainMerged(name, servers, key);
    assert GetList(full, DnsServers) == Ok(servers);
    SameUpdate(full.fields, DnsServers);
  }

  /** A printed domain lacks at most the key name. */
  lemma DomainElementCompleted(net: Net, d: Domain)
    requires d.servers != []
    ensures DomainDefaults(DomainElement(net, d)) == Ok(DomainElementFull(net, d))
  {
    ServersComplete(net, d.servers);
    DomainCompleted(d.name, Printed(d.servers, ServerShower(net)), if d.key.None? then None else Some(d.key.value.name));
  }

  /** Parsing each of a list of printed things, when each comes out as `full` says. */
  lemma {:induction false} EachMapped<T>(xs: seq<T>, show: T -> Json, f: Json -> Result<Json>, full: T -> Json)
    requires forall i :: 0 <= i < |xs| ==> f(show(xs[i])) == Ok(full(xs[i]))
    ensures Each(Printed(xs, show), f) == Ok(Printed(xs, full))
    decreases |xs|
  {
    if xs != [] {
      assert Printed(xs, show)[1..] == Printed(xs[1..], show);
      EachMapped(xs[1..], show, f, full);
      assert Printed(xs, full) == [full(xs[0])] + Printed(xs[1..], full);
    }
  }

  lemma DomainsCompleted(net: Net, ds: seq<Domain>)
    requires forall i :: 0 <= i < |ds| ==> ds[i].servers != []
    ensures Each(Printed(ds, DomainShower(net)), DomainDefaults) == Ok(Printed(ds, FullShower(net)))
  {
    forall i | 0 <= i < |ds| ensures DomainDefaults(DomainShower(net)(ds[i])) == Ok(FullShower(net)(ds[i])) {
      DomainElementCompleted(net, ds[i]);
    }
    EachMapped(ds, DomainShower(net), DomainDefaults, FullShower(net));
  }

  lemma ManagerCompleted(items: seq<Json>, full: seq<Json>)
    requires Each(items, DomainDefaults) == Ok(full)
    ensures ManagerDefaults(Map(map[DdnsDomains := List(items)])) == Ok(Map(map[DdnsDomains := List(full)]))
  {
    var j := Map(map[DdnsDomains := List(items)]);
    assert GetList(j, DdnsDomains) == Ok(items);
    assert j.fields[DdnsDomains := List(full)] == map[DdnsDomains := List(full)];
  }

  lemma ManagerElementCompleted(net: Net, m: Entries<Domain>)
    requires forall i :: 0 <= i < |m| ==> m[i].1.servers != []
    ensures ManagerDefaults(ManagerElement(net, m)) == Ok(ManagerElementFull(net, m))
  {
    DomainsCompleted(net, Values(m));
    ManagerCompleted(Printed(Values(m), DomainShower(net)), Printed(Values(m), FullShower(net)));
  }

  // ----------------------------------------------------------------- the whole configuration

  datatype Params = Params(address: Address, port: nat, timeout: nat)

  datatype Context = Context(params: Params, keys: Entries<TsigKey>, forward: Entries<Domain>, reverse: Entries<Domain>)

  predicate Scalar(j: Json) {
    j.Int? || j.Real? || j.Bool? || j.Str?
  }

  const PARAMETERS := {IpAddress, Port, DnsServerTimeout, NcrProtocol, NcrFormat}

  const OBJECTS := {TsigKeys, ForwardDdns, ReverseDdns, UserContext}

  function Scalars(m: map<Field, Json>): map<Field, Json> {
    map k | k in m && Scalar(m[k]) :: m[k]
  }

  function Objects(m: map<Field, Json>): map<Field, Json> {
    map k | k in m && !Scalar(m[k]) :: m[k]
  }

  predicate AddressAllowed(net: Net, a: Address) {
    net.show(a) != "0.0.0.0" && net.show(a) != "::"
  }

  function ParseAddress(net: Net, j: Json): Result<Address> {
    if !j.Str? then Threw
    else
      var a := net.parse(j.s);
      if a.None? || !AddressAllowed(net, a.value) then Threw else Ok(a.value)
  }

  predicate Says(j: Json, word: string) {
    j.Str? && IEquals(j.s, word)
  }

  predicate ParamOk(net: Net, k: Field, j: Json) {
    match k
    case IpAddress => ParseAddress(net, j).Ok?
    case Port => j.Int? && 0 <= j.i < TWO32
    case DnsServerTimeout => j.Int? && 0 <= j.i < TWO32
    case NcrProtocol => Says(j, "UDP")
    case NcrFormat => Says(j, "JSON")
    case _ => false
  }

  /** The scalar parameters: each one known and well formed, and the address, port and timeout there
      and not zero. An absent protocol or format keeps its initial value. */
  function BuildParams(net: Net, params: map<Field, Json>): Result<Params> {
    if exists k :: k in params && !ParamOk(net, k, params[k]) then Threw
    else if IpAddress !in params || Port !in params || DnsServerTimeout !in params then Threw
    else if params[Port].i == 0 || params[DnsServerTimeout].i < 1 then Threw
    else Ok(Params(ParseAddress(net, params[IpAddress]).value, params[Port].i, params[DnsServerTimeout].i))
  }

  function Named(m: map<Field, Json>, k: Field): Result<Json> {
    if k in m then Ok(m[k]) else Threw
  }

  /** Parsing a configuration with its defaults added: the scalars, then the objects in a fixed order,
      then a check that nothing is left over. */
  function ParseFull(net: Net, m: map<Field, Json>): Result<Context> {
    var params :- BuildParams(net, Scalars(m));
    var objects := Objects(m);
    var keysElement :- Named(objects, TsigKeys);
    var keys :- ParseKeys(net, keysElement);
    var forwardElement :- Named(objects, ForwardDdns);
    var forward :- ParseManager(net, keys, forwardElement);
    var reverseElement :- Named(objects, ReverseDdns);
    var reverse :- ParseManager(net, keys, reverseElement);
    if objects.Keys <= OBJECTS then Ok(Context(params, keys, forward, reverse)) else Threw
  }

  function Parse(net: Net, config: Json): Result<Context> {
    var m :- AllDefaults(config);
    ParseFull(net, m)
  }

  function ParamFields(net: Net, p: Params): map<Field, Json> {
    map[IpAddress := Str(net.show(p.address)), Port := Int(p.port), DnsServerTimeout := Int(p.timeout),
        NcrProtocol := Str("UDP"), NcrFormat := Str("JSON")]
  }

  function Assemble(params: map<Field, Json>, forward: Json, reverse: Json, keys: Json): map<Field, Json> {
    params + map[ForwardDdns := forward, ReverseDdns := reverse, TsigKeys := keys]
  }

  /** The configuration as `toElement` prints it, inside its outer `DhcpDdns` map. */
  function Element(net: Net, c: Context): Json {
    Map(Assemble(ParamFields(net, c.params), ManagerElement(net, c.forward), ManagerElement(net, c.reverse), KeysElement(c.keys)))
  }

  ghost predicate ParamsValid(net: Net, p: Params) {
    && Readable(net, p.address) && AddressAllowed(net, p.address)
    && 1 <= p.port < TWO32 && 1 <= p.timeout < TWO32
  }

  /** What every configuration in force satisfies. */
  ghost predicate ContextValid(net: Net, c: Context) {
    && ParamsValid(net, c.params)
    && KeysValid(net, c.keys)
    && DomainsValid(net, c.keys, c.forward)
    && DomainsValid(net, c.keys, c.reverse)
  }

  lemma ParamsBuilt(net: Net, params: map<Field, Json>)
    requires BuildParams(net, params).Ok?
    ensures ParamsValid(net, BuildParams(net, params).value)
  {
    assert ParamOk(net, IpAddress, params[IpAddress]) && ParamOk(net, Port, params[Port]);
    assert ParamOk(net, DnsServerTimeout, params[DnsServerTimeout]);
    assert net.parse(params[IpAddress].s) == Some(BuildParams(net, params).value.address);
  }

  lemma FullIsValid(net: Net, m: map<Field, Json>)
    requires ParseFull(net, m).Ok?
    ensures ContextValid(net, ParseFull(net, m).value)
  {
    var c := ParseFull(net, m).value;
    ParamsBuilt(net, Scalars(m));
    KeysParsed(net, Objects(m)[TsigKeys]);
    DomainsParsed(net, c.keys, Objects(m)[ForwardDdns]);
    DomainsParsed(net, c.keys, Objects(m)[ReverseDdns]);
  }

  /** Whatever parses is valid: every domain has a server, and its key is one of the keys. */
  lemma {:induction false} ParsedIsValid(net: Net, config: Json)
    requires Parse(net, config).Ok?
    ensures ContextValid(net, Parse(net, config).value)
  {
    FullIsValid(net, AllDefaults(config).value);
  }

  lemma ParamsReparsed(net: Net, p: Params)
    requires Lawful(net) && ParamsValid(net, p)
    ensures BuildParams(net, ParamFields(net, p)) == Ok(p)
  {
    var m := ParamFields(net, p);
    assert net.parse(net.show(p.address)) == Some(p.address);
    assert ParamOk(net, IpAddress, m[IpAddress]) && ParamOk(net, Port, m[Port]);
    assert ParamOk(net, DnsServerTimeout, m[DnsServerTimeout]);
    assert ParamOk(net, NcrProtocol, m[NcrProtocol]) && ParamOk(net, NcrFormat, m[NcrFormat]);
    assert forall k :: k in m ==> ParamOk(net, k, m[k]);
  }

  lemma Assembled(params: map<Field, Json>, forward: Json, reverse: Json, keys: Json)
    requires params.Keys == PARAMETERS
    ensures var m := Assemble(params, forward, reverse, keys);
            && m.Keys == PARAMETERS + {ForwardDdns, ReverseDdns, TsigKeys}
            && m[TsigKeys] == keys && m[ForwardDdns] == forward && m[ReverseDdns] == reverse
            && forall k :: k in PARAMETERS ==> m[k] == params[k]
  {
  }

  lemma Reassembled(params: map<Field, Json>, forward: Json, reverse: Json, keys: Json, forward': Json, reverse': Json)
    ensures Assemble(params, forward, reverse, keys)[TsigKeys := keys][ForwardDdns := forward'][ReverseDdns := reverse']
         == Assemble(params, forward', reverse', keys)
  {
  }

  lemma Completed(params: map<Field, Json>, forward: Json, reverse: Json, keys: Json, forward': Json, reverse': Json)
    requires params.Keys == PARAMETERS
    requires ManagerDefaults(forward) == Ok(forward') && ManagerDefaults(reverse) == Ok(reverse')
    requires KeysDefaults(keys) == Ok(keys)
    ensures AllDefaults(Map(Assemble(params, forward, reverse, keys))) == Ok(Assemble(params, forward', reverse', keys))
  {
    var g := Assemble(params, forward, reverse, keys);
    Assembled(params, forward, reverse, keys);
    MergeBelow(GLOBAL_DEFAULTS, g);
    Reassembled(params, forward, reverse, keys, forward', reverse');
  }

  lemma AssembledSplit(params: map<Field, Json>, forward: Json, reverse: Json, keys: Json)
    requires params.Keys == PARAMETERS && (forall k :: k in params ==> Scalar(params[k]))
    requires forward.Map? && reverse.Map? && keys.List?
    ensures Scalars(Assemble(params, forward, reverse, keys)) == params
    ensures Objects(Assemble(params, forward, reverse, keys)) == map[ForwardDdns := forward, ReverseDdns := reverse, TsigKeys := keys]
  {
    Assembled(params, forward, reverse, keys);
  }

  lemma Reparsed(net: Net, params: map<Field, Json>, forward: Json, reverse: Json, keys: Json, c: Context)
    requires params.Keys == PARAMETERS && (forall k :: k in params ==> Scalar(params[k]))
    requires forward.Map? && reverse.Map? && keys.List?
    requires BuildParams(net, params) == Ok(c.params) && ParseKeys(net, keys) == Ok(c.keys)
    requires ParseManager(net, c.keys, forward) == Ok(c.forward) && ParseManager(net, c.keys, reverse) == Ok(c.reverse)
    ensures ParseFull(net, Assemble(params, forward, reverse, keys)) == Ok(c)
  {
    AssembledSplit(params, forward, reverse, keys);
  }

  /** A printed manager, and what its defaults make of it. */
  ghost predicate ManagerYields(net: Net, keys: Entries<TsigKey>, j: Json, full: Json, m: Entries<Domain>) {
    full.Map? && ManagerDefaults(j) == Ok(full) && ParseManager(net, keys, full) == Ok(m)
  }

  ghost predicate KeysYield(net: Net, j: Json, keys: Entries<TsigKey>) {
    j.List? && KeysDefaults(j) == Ok(j) && ParseKeys(net, j) == Ok(keys)
  }

  /** From the parts to the whole: defaults, then parsing. */
  lemma WholeReparsed(net: Net, params: map<Field, Json>, forward: Json, reverse: Json, keys: Json,
                      forward': Json, reverse': Json, c: Context)
    requires params.Keys == PARAMETERS && (forall k :: k in params ==> Scalar(params[k]))
    requires BuildParams(net, params) == Ok(c.params) && KeysYield(net, keys, c.keys)
    requires ManagerYields(net, c.keys, forward, forward', c.forward)
    requires ManagerYields(net, c.keys, reverse, reverse', c.reverse)
    ensures Parse(net, Map(Assemble(params, forward, reverse, keys))) == Ok(c)
  {
    Completed(params, forward, reverse, keys, forward', reverse');
    Reparsed(net, params, forward', reverse', keys, c);
  }

  /** The same, with the parameters as printed. */
  lemma ReparsedWithParams(net: Net, forward: Json, reverse: Json, keys: Json, forward': Json, reverse': Json, c: Context)
    requires Lawful(net) && ParamsValid(net, c.params) && KeysYield(net, keys, c.keys)
    requires ManagerYields(net, c.keys, forward, forward', c.forward)
    requires ManagerYields(net, c.keys, reverse, reverse', c.reverse)
    ensures Parse(net, Map(Assemble(ParamFields(net, c.params), forward, reverse, keys))) == Ok(c)
  {
    ParamsReparsed(net, c.params);
    WholeReparsed(net, ParamFields(net, c.params), forward, reverse, keys, forward', reverse', c);
  }

  lemma ManagerReparsed(net: Net, keys: Entries<TsigKey>, m: Entries<Domain>) returns (full: Json)
    requires Lawful(net) && KeysValid(net, keys) && DomainsValid(net, keys, m)
    ensures ManagerYields(net, keys, ManagerElement(net, m), full, m)
  {
    full := ManagerElementFull(net, m);
    ManagerElementCompleted(net, m);
    DomainsReparsed(net, keys, m);
  }

  /** The same, with the managers as printed. */
  lemma ReparsedWithManagers(net: Net, keys: Json, c: Context)
    requires Lawful(net) && ContextValid(net, c) && KeysYield(net, keys, c.keys)
    ensures Parse(net, Map(Assemble(ParamFields(net, c.params), ManagerElement(net, c.forward), ManagerElement(net, c.reverse), keys)))
         == Ok(c)
  {
    var forward := ManagerReparsed(net, c.keys, c.forward);
    var reverse := ManagerReparsed(net, c.keys, c.reverse);
    ReparsedWithParams(net, ManagerElement(net, c.forward), ManagerElement(net, c.reverse), keys, forward, reverse, c);
  }

  /** Printing a valid configuration and parsing it again gives it back. */
  lemma {:induction false} ValidReparsed(net: Net, c: Context)
    requires Lawful(net) && ContextValid(net, c)
    ensures Parse(net, Element(net, c)) == Ok(c)
  {
    KeysReparsed(net, c.keys);
    KeysElementComplete(c.keys);
    ReparsedWithManagers(net, KeysElement(c.keys), c);
  }

  /** The round trip: whatever parses prints to something that parses to the same configuration. */
  lemma {:induction false} RoundTrip(net: Net, config: Json)
    requires Lawful(net) && Parse(net, config).Ok?
    ensures Parse(net, Element(net, Parse(net, config).value)) == Parse(net, config)
  {
    ParsedIsValid(net, config);
    ValidReparsed(net, Parse(net, config).value);
  }

  /** The valid configurations are exactly those that some text denotes. */
  lemma ValidIsParsed(net: Net, c: Context)
    requires Lawful(net)
    ensures ContextValid(net, c) <==> exists config :: Parse(net, config) == Ok(c)
  {
    if ContextValid(net, c) {
      ValidReparsed(net, c);
    }
    if exists config :: Parse(net, config) == Ok(c) {
      var config :| Parse(net, config) == Ok(c);
      ParsedIsValid(net, config);
    }
  }
}
