/** Dynamic updates of a DNS zone (RFC 2136) as far as DHCP-DDNS uses them, and the six requests it
    builds: three to add a lease (sections 5.3 and 5.4 of RFC 4703, nc_add.cc), three to remove one
    (section 5.5, nc_remove.cc).
 */
module DnsUpdate {
  import opened Text
  import opened ReverseNames
  import opened QueueMgr

  datatype RrType = A | AAAA | DHCID | PTR | OtherType(code: nat)

  datatype Rdata = Ip(address: Address) | Client(dhcid: string) | Pointer(fqdn: string) | Opaque(bytes: string)

  datatype Rr = Rr(rtype: RrType, rdata: Rdata)

  /** A zone: the resource records at each name.  Time to live plays no part. */
  type Zone = map<string, set<Rr>>

  function At(z: Zone, name: string): set<Rr> {
    if name in z then z[name] else {}
  }

  function OfType(rrs: set<Rr>, t: RrType): set<Rr> {
    set r | r in rrs && r.rtype == t
  }

  /** Prerequisites, sections 2.4.1 to 2.4.5 of RFC 2136. */
  datatype Prereq =
    | NotInUse(name: string)
    | InUse(name: string)
    | Exactly(name: string, rr: Rr)
    | NoRrset(name: string, rtype: RrType)

  /** Updates, sections 2.5.1 to 2.5.4. */
  datatype Change =
    | Add(name: string, rr: Rr)
    | DeleteRrset(name: string, rtype: RrType)
    | DeleteName(name: string)
    | DeleteRr(name: string, rr: Rr)

  datatype Message = Message(prereqs: seq<Prereq>, changes: seq<Change>)

  datatype Rcode = NoError | YxDomain | NxDomain | NxRrset | YxRrset | OtherRcode

  // ----------------------------------------------------------------- the server

  /** Section 3.2 of RFC 2136; a value-dependent prerequisite compares the whole RRset. */
  function Check(z: Zone, p: Prereq): Rcode {
    match p
    case NotInUse(n) => if At(z, n) == {} then NoError else YxDomain
    case InUse(n) => if At(z, n) != {} then NoError else NxDomain
    case Exactly(n, rr) => if OfType(At(z, n), rr.rtype) == {rr} then NoError else NxRrset
    case NoRrset(n, t) => if OfType(At(z, n), t) == {} then NoError else YxRrset
  }

  function CheckAll(z: Zone, ps: seq<Prereq>): Rcode {
    if ps == [] then NoError
    else if Check(z, ps[0]) != NoError then Check(z, ps[0])
    else CheckAll(z, ps[1..])
  }

  /** Section 3.4.2. */
  function Apply(z: Zone, c: Change): Zone {
    match c
    case Add(n, rr) => z[n := At(z, n) + {rr}]
    case DeleteRrset(n, t) => z[n := At(z, n) - OfType(At(z, n), t)]
    case DeleteName(n) => z[n := {}]
    case DeleteRr(n, rr) => z[n := At(z, n) - {rr}]
  }

  function ApplyAll(z: Zone, cs: seq<Change>): Zone
    decreases |cs|
  {
    if cs == [] then z else ApplyAll(Apply(z, cs[0]), cs[1..])
  }

  /** An update is atomic: all changes when every prerequisite holds, none otherwise. */
  function Serve(z: Zone, m: Message): (Zone, Rcode) {
    var rc := CheckAll(z, m.prereqs);
    (if rc == NoError then ApplyAll(z, m.changes) else z, rc)
  }

  // ----------------------------------------------------------------- the requests

  datatype Kind = AddFwd | ReplaceFwd | ReplaceRev | RemoveFwdAddr | RemoveFwdRrs | RemoveRev

  predicate IsForward(k: Kind) {
    k.AddFwd? || k.ReplaceFwd? || k.RemoveFwdAddr? || k.RemoveFwdRrs?
  }

  /** `getAddressRRType`. */
  function AddressType(a: Address): RrType {
    if a.V4? then A else AAAA
  }

  function AddressRr(a: Address): Rr {
    Rr(AddressType(a), Ip(a))
  }

  function ClientRr(dhcid: string): Rr {
    Rr(DHCID, Client(dhcid))
  }

  function ReverseName(a: Address): string {
    ZoneName(Host(a))
  }

  /** The request a transaction for this lease sends; building it throws on an address that does not
      parse. */
  function Build(ncr: Ncr, k: Kind): Result<Message> {
    if ncr.address.None? then Threw else
      var (f, ip) := (ncr.fqdn, ncr.address.value);
      match k
      case AddFwd =>
        Ok(Message([NotInUse(f)], [Add(f, AddressRr(ip)), Add(f, ClientRr(ncr.dhcid))]))
      case ReplaceFwd =>
        Ok(Message([InUse(f), Exactly(f, ClientRr(ncr.dhcid))],
                   [DeleteRrset(f, AddressType(ip)), Add(f, AddressRr(ip))]))
      case ReplaceRev =>
        var r := ReverseName(ip);
        Ok(Message([], [DeleteRrset(r, PTR), DeleteRrset(r, DHCID),
                        Add(r, Rr(PTR, Pointer(f))), Add(r, ClientRr(ncr.dhcid))]))
      case RemoveFwdAddr =>
        Ok(Message([Exactly(f, ClientRr(ncr.dhcid))], [DeleteRr(f, AddressRr(ip))]))
      case RemoveFwdRrs =>
        Ok(Message([Exactly(f, ClientRr(ncr.dhcid)), NoRrset(f, A), NoRrset(f, AAAA)], [DeleteName(f)]))
      case RemoveRev =>
        Ok(Message([Exactly(ReverseName(ip), Rr(PTR, Pointer(f)))], [DeleteName(ReverseName(ip))]))
  }

  /** The name a request changes, if it changes anything. */
  function Subject(ncr: Ncr, k: Kind): string
    requires ncr.address.Some?
  {
    if IsForward(k) then ncr.fqdn else ReverseName(ncr.address.value)
  }

  // ----------------------------------------------------------------- what the requests do

  lemma {:induction false} ApplyElsewhere(z: Zone, cs: seq<Change>, name: string)
    requires forall i :: 0 <= i < |cs| ==> cs[i].name != name
    ensures At(ApplyAll(z, cs), name) == At(z, name)
    decreases |cs|
  {
    if cs != [] { ApplyElsewhere(Apply(z, cs[0]), cs[1..], name); }
  }

  /** A request touches no name but its subject. */
  lemma TouchesOnlySubject(z: Zone, ncr: Ncr, k: Kind, name: string)
    requires ncr.address.Some? && name != Subject(ncr, k)
    ensures At(Serve(z, Build(ncr, k).value).0, name) == At(z, name)
  {
    ApplyElsewhere(z, Build(ncr, k).value.changes, name);
  }

  lemma Check2(z: Zone, p: Prereq, q: Prereq)
    ensures CheckAll(z, [p, q]) == if Check(z, p) != NoError then Check(z, p) else Check(z, q)
  {
    assert [p, q][1..] == [q];
    assert CheckAll(z, [q][1..]) == NoError;
  }

  lemma Apply2(z: Zone, c: Change, d: Change)
    ensures ApplyAll(z, [c, d]) == Apply(Apply(z, c), d)
  {
    assert [c, d][1..] == [d];
    assert ApplyAll(Apply(z, c), [d]) == ApplyAll(Apply(Apply(z, c), d), [d][1..]);
  }

  /** Adding succeeds exactly on a free name, and then the name carries the lease and its client and
      nothing else; on a name in use the server answers YXDOMAIN. */
  lemma AddOutcome(z: Zone, ncr: Ncr)
    requires ncr.address.Some?
    ensures var (z', rc) := Serve(z, Build(ncr, AddFwd).value);
            if At(z, ncr.fqdn) == {}
            then rc == NoError && At(z', ncr.fqdn) == {AddressRr(ncr.address.value), ClientRr(ncr.dhcid)}
            else rc == YxDomain && z' == z
  {
    var m := Build(ncr, AddFwd).value;
    assert CheckAll(z, m.prereqs[1..]) == NoError;
    Apply2(z, m.changes[0], m.changes[1]);
  }

  /** Replacing succeeds exactly on a name that carries the client's DHCID and no other, and then the
      name has the lease as its only address of that family, everything else kept.  A free name is
      answered NXDOMAIN, a name of anybody else's NXRRSET. */
  lemma ReplaceOutcome(z: Zone, ncr: Ncr)
    requires ncr.address.Some?
    ensures var (z', rc) := Serve(z, Build(ncr, ReplaceFwd).value);
            var rrs := At(z, ncr.fqdn);
            var t := AddressType(ncr.address.value);
            if rrs == {} then rc == NxDomain && z' == z
            else if OfType(rrs, DHCID) != {ClientRr(ncr.dhcid)} then rc == NxRrset && z' == z
            else && rc == NoError
                 && OfType(At(z', ncr.fqdn), t) == {AddressRr(ncr.address.value)}
                 && (forall r: Rr :: r.rtype != t ==> (r in At(z', ncr.fqdn) <==> r in rrs))
  {
    var m := Build(ncr, ReplaceFwd).value;
    Check2(z, m.prereqs[0], m.prereqs[1]);
    Apply2(z, m.changes[0], m.changes[1]);
  }

  lemma Apply4(z: Zone, a: Change, b: Change, c: Change, d: Change)
    ensures ApplyAll(z, [a, b, c, d]) == Apply(Apply(Apply(Apply(z, a), b), c), d)
  {
    assert [a, b, c, d][1..] == [b, c, d] && [b, c, d][1..] == [c, d];
    var z1 := Apply(z, a);
    assert ApplyAll(z1, [b, c, d]) == ApplyAll(Apply(z1, b), [c, d]);
    Apply2(Apply(z1, b), c, d);
  }

  /** The reverse replacement always goes through: one pointer, to the lease's name, and one DHCID,
      the client's, whatever was there before. */
  lemma ReplaceRevOutcome(z: Zone, ncr: Ncr)
    requires ncr.address.Some?
    ensures var (z', rc) := Serve(z, Build(ncr, ReplaceRev).value);
            var rrs := At(z', ReverseName(ncr.address.value));
            && rc == NoError
            && OfType(rrs, PTR) == {Rr(PTR, Pointer(ncr.fqdn))}
            && OfType(rrs, DHCID) == {ClientRr(ncr.dhcid)}
            && (forall r: Rr :: r.rtype != PTR && r.rtype != DHCID ==>
                  (r in rrs <==> r in At(z, ReverseName(ncr.address.value))))
  {
    var cs := Build(ncr, ReplaceRev).value.changes;
    Apply4(z, cs[0], cs[1], cs[2], cs[3]);
  }

  /** Removing the address succeeds exactly on a name that carries the client's DHCID and no other, and
      takes away that address and nothing else. */
  lemma RemoveAddrOutcome(z: Zone, ncr: Ncr)
    requires ncr.address.Some?
    ensures var (z', rc) := Serve(z, Build(ncr, RemoveFwdAddr).value);
            var rrs := At(z, ncr.fqdn);
            if OfType(rrs, DHCID) == {ClientRr(ncr.dhcid)}
            then rc == NoError && At(z', ncr.fqdn) == rrs - {AddressRr(ncr.address.value)}
            else rc == NxRrset && z' == z
  {
    var m := Build(ncr, RemoveFwdAddr).value;
    assert CheckAll(z, m.prereqs[1..]) == NoError;
    assert ApplyAll(z, m.changes) == ApplyAll(Apply(z, m.changes[0]), m.changes[1..]);
  }

  /** Removing the name succeeds exactly when it carries the client's DHCID and no other and no address
      of either family is left, and then frees it. */
  lemma RemoveRrsOutcome(z: Zone, ncr: Ncr)
    requires ncr.address.Some?
    ensures var (z', rc) := Serve(z, Build(ncr, RemoveFwdRrs).value);
            var rrs := At(z, ncr.fqdn);
            if OfType(rrs, DHCID) != {ClientRr(ncr.dhcid)} then rc == NxRrset && z' == z
            else if exists r :: r in rrs && (r.rtype == A || r.rtype == AAAA) then rc == YxRrset && z' == z
            else rc == NoError && At(z', ncr.fqdn) == {}
  {
    var m := Build(ncr, RemoveFwdRrs).value;
    var rrs := At(z, ncr.fqdn);
    assert m.prereqs[1..] == [NoRrset(ncr.fqdn, A), NoRrset(ncr.fqdn, AAAA)];
    Check2(z, NoRrset(ncr.fqdn, A), NoRrset(ncr.fqdn, AAAA));
    if r :| r in rrs && (r.rtype == A || r.rtype == AAAA) { assert r in OfType(rrs, r.rtype); }
    assert ApplyAll(z, m.changes) == ApplyAll(Apply(z, m.changes[0]), m.changes[1..]);
  }

  /** Removing the reverse name succeeds exactly when its only pointer is to the lease's name, and then
      frees it. */
  lemma RemoveRevOutcome(z: Zone, ncr: Ncr)
    requires ncr.address.Some?
    ensures var (z', rc) := Serve(z, Build(ncr, RemoveRev).value);
            var name := ReverseName(ncr.address.value);
            if OfType(At(z, name), PTR) == {Rr(PTR, Pointer(ncr.fqdn))} then rc == NoError && At(z', name) == {}
            else rc == NxRrset && z' == z
  {
    var m := Build(ncr, RemoveRev).value;
    assert CheckAll(z, m.prereqs[1..]) == NoError;
    assert ApplyAll(z, m.changes) == ApplyAll(Apply(z, m.changes[0]), m.changes[1..]);
  }

  /** Removing undoes adding: a free name that was given to a lease is free again after the two
      removal requests for the same lease, both of which succeed. */
  lemma RemoveUndoesAdd(z: Zone, ncr: Ncr)
    requires ncr.address.Some? && At(z, ncr.fqdn) == {}
    ensures var z1 := Serve(z, Build(ncr, AddFwd).value).0;
            var (z2, rc2) := Serve(z1, Build(ncr, RemoveFwdAddr).value);
            var (z3, rc3) := Serve(z2, Build(ncr, RemoveFwdRrs).value);
            rc2 == NoError && rc3 == NoError && forall n :: At(z3, n) == At(z, n)
  {
    var z1 := Serve(z, Build(ncr, AddFwd).value).0;
    AddOutcome(z, ncr);
    RemoveAddrLeavesClient(z1, ncr);
    var z2 := Serve(z1, Build(ncr, RemoveFwdAddr).value).0;
    RemoveRrsFrees(z2, ncr);
    forall n ensures At(Serve(z2, Build(ncr, RemoveFwdRrs).value).0, n) == At(z, n) {
      if n != ncr.fqdn {
        TouchesOnlySubject(z, ncr, AddFwd, n);
        TouchesOnlySubject(z1, ncr, RemoveFwdAddr, n);
        TouchesOnlySubject(z2, ncr, RemoveFwdRrs, n);
      }
    }
  }

  lemma RemoveAddrLeavesClient(z: Zone, ncr: Ncr)
    requires ncr.address.Some? && At(z, ncr.fqdn) == {AddressRr(ncr.address.value), ClientRr(ncr.dhcid)}
    ensures var (z', rc) := Serve(z, Build(ncr, RemoveFwdAddr).value);
            rc == NoError && At(z', ncr.fqdn) == {ClientRr(ncr.dhcid)}
  {
    var m := Build(ncr, RemoveFwdAddr).value;
    assert OfType(At(z, ncr.fqdn), DHCID) == {ClientRr(ncr.dhcid)};
    assert CheckAll(z, m.prereqs[1..]) == NoError;
    assert ApplyAll(z, m.changes) == ApplyAll(Apply(z, m.changes[0]), m.changes[1..]);
  }

  lemma RemoveRrsFrees(z: Zone, ncr: Ncr)
    requires ncr.address.Some? && At(z, ncr.fqdn) == {ClientRr(ncr.dhcid)}
    ensures var (z', rc) := Serve(z, Build(ncr, RemoveFwdRrs).value);
            rc == NoError && At(z', ncr.fqdn) == {}
  {
    var m := Build(ncr, RemoveFwdRrs).value;
    assert OfType(At(z, ncr.fqdn), DHCID) == {ClientRr(ncr.dhcid)};
    assert m.prereqs[1..] == [NoRrset(ncr.fqdn, A), NoRrset(ncr.fqdn, AAAA)];
    Check2(z, NoRrset(ncr.fqdn, A), NoRrset(ncr.fqdn, AAAA));
    assert ApplyAll(z, m.changes) == ApplyAll(Apply(z, m.changes[0]), m.changes[1..]);
  }

  /** A lost answer does no harm: after an add that went through unnoticed, the retry is told that
      the name is in use, and the replacement it then sends succeeds and changes nothing. */
  lemma LostAnswerHeals(z: Zone, ncr: Ncr)
    requires ncr.address.Some? && At(z, ncr.fqdn) == {}
    ensures var z1 := Serve(z, Build(ncr, AddFwd).value).0;
            var (z2, rc2) := Serve(z1, Build(ncr, AddFwd).value);
            var (z3, rc3) := Serve(z2, Build(ncr, ReplaceFwd).value);
            rc2 == YxDomain && rc3 == NoError && At(z3, ncr.fqdn) == At(z1, ncr.fqdn)
  {
    AddOutcome(z, ncr);
    var z1 := Serve(z, Build(ncr, AddFwd).value).0;
    AddOutcome(z1, ncr);
    var mine := {AddressRr(ncr.address.value), ClientRr(ncr.dhcid)};
    assert At(z1, ncr.fqdn) == mine;
    assert OfType(mine, DHCID) == {ClientRr(ncr.dhcid)};
    assert AddressRr(ncr.address.value) in mine;
    ReplaceOutcome(z1, ncr);
    SameRecords(z1, ncr);
  }

  lemma SameRecords(z: Zone, ncr: Ncr)
    requires ncr.address.Some? && At(z, ncr.fqdn) == {AddressRr(ncr.address.value), ClientRr(ncr.dhcid)}
    ensures At(Serve(z, Build(ncr, ReplaceFwd).value).0, ncr.fqdn) == At(z, ncr.fqdn)
  {
    var mine := At(z, ncr.fqdn);
    assert OfType(mine, DHCID) == {ClientRr(ncr.dhcid)};
    ReplaceOutcome(z, ncr);
    var after := At(Serve(z, Build(ncr, ReplaceFwd).value).0, ncr.fqdn);
    forall r: Rr ensures r in after <==> r in mine {
      var t := AddressType(ncr.address.value);
      if r.rtype == t {
        assert r in after <==> r in OfType(after, t);
      }
    }
  }

  // ----------------------------------------------------------------- ownership

  /** The name carries this client's DHCID. */
  predicate Owns(z: Zone, name: string, dhcid: string) {
    ClientRr(dhcid) in At(z, name)
  }

  /** A forward request of one client is refused on a name that carries another client's DHCID. */
  lemma StrangerRefused(z: Zone, ncr: Ncr, k: Kind, dhcid: string)
    requires ncr.address.Some? && IsForward(k)
    requires Owns(z, ncr.fqdn, dhcid) && ncr.dhcid != dhcid
    ensures Serve(z, Build(ncr, k).value).1 != NoError && Serve(z, Build(ncr, k).value).0 == z
  {
    var rrs := At(z, ncr.fqdn);
    assert ClientRr(dhcid) in OfType(rrs, DHCID);
    assert OfType(rrs, DHCID) != {ClientRr(ncr.dhcid)};
    var m := Build(ncr, k).value;
    assert k.ReplaceFwd? ==> CheckAll(z, m.prereqs) != NoError by {
      if k.ReplaceFwd? { Check2(z, m.prereqs[0], m.prereqs[1]); }
    }
  }
}
