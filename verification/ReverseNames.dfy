/** Reverse names of addresses and the reverse zone that serves an address: `reverseV4Address`,
    `reverseV6Address` and `matchReverse` of d2_cfg_mgr.cc.

    Zones are prefixes: whole octets for IPv4 (section 3.5 of RFC 1035), nibbles for IPv6
    (section 2.5 of RFC 3596).  The theorem is that matching names label by label is longest-prefix
    match on the addresses they stand for.
 */
module ReverseNames {
  import opened Text
  import opened DomainMatch

  type Octet = x: int | 0 <= x < 256
  type Nibble = x: int | 0 <= x < 16

  /** `IOAddress`: four or sixteen octets, most significant first. */
  datatype Address = V4(octets: seq<Octet>) | V6(octets: seq<Octet>)

  /** A reverse zone: the leading octets or nibbles that its addresses share. */
  datatype Prefix = P4(units4: seq<Octet>) | P6(units6: seq<Nibble>)

  function Size(p: Prefix): nat {
    if p.P4? then |p.units4| else |p.units6|
  }

  /** The two nibbles of each octet in turn. */
  function Nibbles(octets: seq<Octet>): (r: seq<Nibble>)
    ensures |r| == 2 * |octets|
  {
    if octets == [] then [] else
      var o := octets[|octets| - 1];
      Nibbles(octets[..|octets| - 1]) + [o / 16, o % 16]
  }

  /** The whole address as a prefix. */
  function Host(a: Address): Prefix {
    if a.V4? then P4(a.octets) else P6(Nibbles(a.octets))
  }

  /** Every address under `p` is under `zone`. */
  predicate Within(p: Prefix, zone: Prefix) {
    || (p.P4? && zone.P4? && zone.units4 <= p.units4)
    || (p.P6? && zone.P6? && zone.units6 <= p.units6)
  }

  // ----------------------------------------------------------------- names

  /** One digit of `encodeHex`, which prints capitals. */
  function HexDigit(n: Nibble): (c: char)
    ensures '0' <= c <= '9' || 'A' <= c <= 'F'
  {
    if n < 10 then Digit(n) else ('A' as int + n - 10) as char
  }

  const IPV4_REV_ZONE_SUFFIX := "in-addr.arpa."
  const IPV6_REV_ZONE_SUFFIX := "ip6.arpa."

  function Suffix(p: Prefix): string {
    if p.P4? then IPV4_REV_ZONE_SUFFIX else IPV6_REV_ZONE_SUFFIX
  }

  /** The label of the last unit of a prefix, which comes first in its name. */
  function LastLabel(p: Prefix): (s: string)
    requires Size(p) > 0
    ensures s != "" && forall i :: 0 <= i < |s| ==> '0' <= s[i] <= '9' || 'A' <= s[i] <= 'F'
  {
    if p.P4? then Decimal(p.units4[|p.units4| - 1]) else [HexDigit(p.units6[|p.units6| - 1])]
  }

  function Shorter(p: Prefix): (q: Prefix)
    requires Size(p) > 0
    ensures Size(q) == Size(p) - 1
  {
    if p.P4? then P4(p.units4[..|p.units4| - 1]) else P6(p.units6[..|p.units6| - 1])
  }

  /** The domain name of a reverse zone. */
  function ZoneName(p: Prefix): string
    decreases Size(p)
  {
    if Size(p) == 0 then Suffix(p) else LastLabel(p) + "." + ZoneName(Shorter(p))
  }

  lemma Associate(a: string, b: string, c: string, d: string)
    ensures a + (b + c + d) == (a + b + c) + d
  {
  }

  /** Moving one unit from the prefix still to print to the text already printed. */
  lemma {:induction false} PrintOne(text: string, p: Prefix)
    requires Size(p) > 0
    ensures text + ZoneName(p) == (text + LastLabel(p) + ".") + ZoneName(Shorter(p))
  {
    Associate(text, LastLabel(p), ".", ZoneName(Shorter(p)));
  }

  /** `reverseV4Address`: octets from the back, a dot after each, then the suffix. */
  method ReverseV4Address(octets: seq<Octet>) returns (name: string)
    ensures name == ZoneName(P4(octets))
  {
    name := "";
    var i := |octets|;
    assert octets[..i] == octets;
    assert name + ZoneName(P4(octets)) == ZoneName(P4(octets));
    while i > 0
      invariant 0 <= i <= |octets|
      invariant name + ZoneName(P4(octets[..i])) == ZoneName(P4(octets))
    {
      PrintOne(name, P4(octets[..i]));
      assert octets[..i][..i - 1] == octets[..i - 1];
      name := name + Decimal(octets[i - 1]) + ".";
      i := i - 1;
    }
    name := name + IPV4_REV_ZONE_SUFFIX;
  }

  /** `encodeHex` of the address bytes. */
  method EncodeHex(octets: seq<Octet>) returns (digits: string)
    ensures |digits| == |Nibbles(octets)|
    ensures forall k :: 0 <= k < |digits| ==> digits[k] == HexDigit(Nibbles(octets)[k])
  {
    digits := "";
    var i := 0;
    while i < |octets|
      invariant 0 <= i <= |octets|
      invariant |digits| == |Nibbles(octets[..i])|
      invariant forall k :: 0 <= k < |digits| ==> digits[k] == HexDigit(Nibbles(octets[..i])[k])
    {
      digits := digits + [HexDigit(octets[i] / 16), HexDigit(octets[i] % 16)];
      i := i + 1;
      assert octets[..i][..i - 1] == octets[..i - 1];
    }
    assert octets[..i] == octets;
  }

  /** `reverseV6Address`: hexadecimal digits from the back, a dot after each, then the suffix. */
  method ReverseV6Address(octets: seq<Octet>) returns (name: string)
    ensures name == ZoneName(P6(Nibbles(octets)))
  {
    var digits := EncodeHex(octets);
    ghost var units := Nibbles(octets);
    name := "";
    var i := |digits|;
    assert units[..i] == units;
    assert name + ZoneName(P6(units)) == ZoneName(P6(units));
    while i > 0
      invariant 0 <= i <= |digits|
      invariant name + ZoneName(P6(units[..i])) == ZoneName(P6(units))
    {
      PrintOne(name, P6(units[..i]));
      assert units[..i][..i - 1] == units[..i - 1];
      name := name + [digits[i - 1]] + ".";
      i := i - 1;
    }
    name := name + IPV6_REV_ZONE_SUFFIX;
  }

  /** `reverseIpAddress`. */
  method ReverseIpAddress(a: Address) returns (name: string)
    ensures name == ZoneName(Host(a))
  {
    if a.V4? { name := ReverseV4Address(a.octets); } else { name := ReverseV6Address(a.octets); }
  }

  // ----------------------------------------------------------------- names determine prefixes

  lemma SplitUnique(a: string, x: string, b: string, y: string)
    requires a + "." + x == b + "." + y
    requires forall i :: 0 <= i < |a| ==> a[i] != '.'
    requires forall i :: 0 <= i < |b| ==> b[i] != '.'
    ensures a == b && x == y
  {
    var s := a + "." + x;
    DotAfterLabel(a, x);
    DotAfterLabel(b, y);
    assert a == s[..|a|] == b;
    assert x == s[|a| + 1..] == y;
  }

  lemma DigitsFold(s: string)
    requires forall i :: 0 <= i < |s| ==> '0' <= s[i] <= '9'
    ensures Fold(s) == s
  {
  }

  lemma LabelFold(p: Prefix)
    requires Size(p) > 0
    ensures var f := Fold(LastLabel(p));
            f != "" && forall i :: 0 <= i < |f| ==> f[i] != '.' && ('0' <= f[i] <= '9' || 'a' <= f[i] <= 'f')
  {
    var l := LastLabel(p);
    forall i | 0 <= i < |l| ensures Fold(l)[i] == Lower(l[i]) {}
  }

  lemma NameFold(p: Prefix)
    requires Size(p) > 0
    ensures Fold(ZoneName(p)) == Fold(LastLabel(p)) + "." + Fold(ZoneName(Shorter(p)))
  {
    FoldConcat(LastLabel(p) + ".", ZoneName(Shorter(p)));
    FoldConcat(LastLabel(p), ".");
    assert Fold(".") == ".";
  }

  lemma SuffixFold(p: Prefix)
    ensures Fold(Suffix(p)) == Suffix(p)
  {
    forall i | 0 <= i < |Suffix(p)| ensures Lower(Suffix(p)[i]) == Suffix(p)[i] {}
  }

  /** A name with a label in front is not a bare suffix: suffixes start with 'i'. */
  lemma LabelIsNotSuffix(p: Prefix, q: Prefix)
    requires Size(p) > 0 && Size(q) == 0
    ensures !IEquals(ZoneName(p), ZoneName(q))
  {
    NameFold(p);
    LabelFold(p);
    SuffixFold(q);
    assert Fold(ZoneName(p))[0] == Fold(LastLabel(p))[0];
    assert Suffix(q)[0] == 'i';
  }

  lemma SameSuffix(p: Prefix, q: Prefix)
    requires Size(p) == 0 && Size(q) == 0 && IEquals(ZoneName(p), ZoneName(q))
    ensures p == q
  {
    SuffixFold(p);
    SuffixFold(q);
    assert IPV4_REV_ZONE_SUFFIX[1] != IPV6_REV_ZONE_SUFFIX[1];
  }

  lemma SameLastLabel(p: Prefix, q: Prefix)
    requires Size(p) > 0 && Size(q) > 0
    requires Fold(LastLabel(p)) == Fold(LastLabel(q)) && Shorter(p) == Shorter(q)
    ensures p == q
  {
    if p.P4? {
      DigitsFold(LastLabel(p));
      DigitsFold(LastLabel(q));
      DecimalInjective(p.units4[|p.units4| - 1], q.units4[|q.units4| - 1]);
      assert p.units4 == Shorter(p).units4 + [p.units4[|p.units4| - 1]];
      assert q.units4 == Shorter(q).units4 + [q.units4[|q.units4| - 1]];
    } else {
      assert Fold(LastLabel(p))[0] == Lower(LastLabel(p)[0]);
      assert Fold(LastLabel(q))[0] == Lower(LastLabel(q)[0]);
      assert p.units6 == Shorter(p).units6 + [p.units6[|p.units6| - 1]];
      assert q.units6 == Shorter(q).units6 + [q.units6[|q.units6| - 1]];
    }
  }

  /** Two reverse zones, of either family, share a name in any letter case only when they are one zone. */
  lemma {:induction false} ZoneNameInjective(p: Prefix, q: Prefix)
    requires IEquals(ZoneName(p), ZoneName(q))
    ensures p == q
    decreases Size(p)
  {
    if Size(p) == 0 && Size(q) == 0 {
      SameSuffix(p, q);
    } else if Size(p) == 0 {
      LabelIsNotSuffix(q, p);
    } else if Size(q) == 0 {
      LabelIsNotSuffix(p, q);
    } else {
      NameFold(p); NameFold(q);
      LabelFold(p); LabelFold(q);
      SplitUnique(Fold(LastLabel(p)), Fold(ZoneName(Shorter(p))), Fold(LastLabel(q)), Fold(ZoneName(Shorter(q))));
      ZoneNameInjective(Shorter(p), Shorter(q));
      SameLastLabel(p, q);
    }
  }

  // ----------------------------------------------------------------- longest prefix

  /** The domain map holds reverse zones: entry `i` is named after `zones[i]`, in any letter case. */
  ghost predicate NamedAfter<D>(domains: Domains<D>, zones: seq<Prefix>) {
    && |domains| == |zones|
    && forall i :: 0 <= i < |zones| ==> IEquals(domains[i].0, ZoneName(zones[i]))
  }

  /** Zone `k` is the longest of the zones that contain `p`. */
  ghost predicate Longest(zones: seq<Prefix>, p: Prefix, k: nat) {
    && k < |zones| && Within(p, zones[k])
    && forall j :: 0 <= j < |zones| && Within(p, zones[j]) ==> Size(zones[j]) <= Size(zones[k])
  }

  lemma DotAfterLabel(l: string, rest: string)
    requires forall i :: 0 <= i < |l| ==> l[i] != '.'
    ensures FirstDot(l + "." + rest) == |l|
  {
    var s := l + "." + rest;
    assert s[|l|] == '.';
    var d := FirstDot(s);
    assert forall i :: 0 <= i < |l| ==> s[i] == l[i];
  }

  lemma StripLabel<D>(domains: Domains<D>, l: string, rest: string)
    requires forall i :: 0 <= i < |l| ==> l[i] != '.'
    requires FirstNamed(domains, l + "." + rest).None?
    ensures LabelSearch(domains, l + "." + rest) == if rest == "" then None else LabelSearch(domains, rest)
  {
    DotAfterLabel(l, rest);
    StripOnce(domains, l + "." + rest);
    assert (l + "." + rest)[|l| + 1..] == rest;
  }

  lemma {:induction false} ZoneNameLength(p: Prefix)
    ensures |ZoneName(p)| >= |Suffix(p)| >= 9
    decreases Size(p)
  {
    if Size(p) > 0 { ZoneNameLength(Shorter(p)); }
  }

  /** No zone is named "arpa.". */
  lemma ArpaUnnamed<D>(domains: Domains<D>, zones: seq<Prefix>)
    requires NamedAfter(domains, zones)
    ensures LabelSearch(domains, "arpa.").None?
  {
    forall i | 0 <= i < |domains| ensures !IEquals(domains[i].0, "arpa.") {
      ZoneNameLength(zones[i]);
      IEqualsLength(domains[i].0, ZoneName(zones[i]));
      DifferentLengths("arpa.", domains[i].0);
    }
    NoneNamed(domains, "arpa.");
    assert "arpa" + "." + "" == "arpa.";
    StripLabel(domains, "arpa", "");
  }

  lemma {:induction false} SuffixSearch<D>(domains: Domains<D>, zones: seq<Prefix>, p: Prefix)
    requires NamedAfter(domains, zones) && Size(p) == 0 && FirstNamed(domains, Suffix(p)).None?
    ensures LabelSearch(domains, Suffix(p)).None?
  {
    ArpaUnnamed(domains, zones);
    var l := if p.P4? then "in-addr" else "ip6";
    assert l + "." + "arpa." == Suffix(p);
    StripLabel(domains, l, "arpa.");
  }

  /** Naming the zone itself: the first map entry carrying the name of `p` is the zone `p`. */
  lemma NamedIsZone<D>(domains: Domains<D>, zones: seq<Prefix>, p: Prefix) returns (k: nat)
    requires NamedAfter(domains, zones) && FirstNamed(domains, ZoneName(p)).Some?
    ensures k < |zones| && zones[k] == p && FirstNamed(domains, ZoneName(p)) == Some(domains[k].1)
  {
    k := NamedIndex(domains, ZoneName(p));
    ZoneNameInjective(zones[k], p);
  }

  lemma UnnamedIsNoZone<D>(domains: Domains<D>, zones: seq<Prefix>, p: Prefix)
    requires NamedAfter(domains, zones) && FirstNamed(domains, ZoneName(p)).None?
    ensures p !in zones
  {
    if p in zones {
      var k :| 0 <= k < |zones| && zones[k] == p;
      SomeNamed(domains, ZoneName(p), k);
    }
  }

  lemma {:induction false} SomeNamed<D>(domains: Domains<D>, name: string, k: nat)
    requires k < |domains| && IEquals(domains[k].0, name)
    ensures FirstNamed(domains, name).Some?
  {
    if k > 0 { SomeNamed(domains[1..], name, k - 1); }
  }

  lemma WithinShorter(p: Prefix, zone: Prefix)
    requires Size(p) > 0
    ensures Within(p, zone) <==> zone == p || Within(Shorter(p), zone)
  {
    if p.P4? && zone.P4? && Within(p, zone) && |zone.units4| < |p.units4| {
      assert zone.units4 <= p.units4[..|p.units4| - 1];
    }
    if p.P6? && zone.P6? && Within(p, zone) && |zone.units6| < |p.units6| {
      assert zone.units6 <= p.units6[..|p.units6| - 1];
    }
  }

  /** Label stripping on the name of a prefix is longest-prefix match among the zones. */
  lemma {:induction false} LongestPrefix<D>(domains: Domains<D>, zones: seq<Prefix>, p: Prefix) returns (k: nat)
    requires NamedAfter(domains, zones)
    ensures match LabelSearch(domains, ZoneName(p))
            case Some(d) => Longest(zones, p, k) && d == domains[k].1
            case None => forall j :: 0 <= j < |zones| ==> !Within(p, zones[j])
    decreases Size(p)
  {
    k := 0;
    if FirstNamed(domains, ZoneName(p)).Some? {
      k := NamedIsZone(domains, zones, p);
    } else {
      UnnamedIsNoZone(domains, zones, p);
      if Size(p) == 0 {
        SuffixSearch(domains, zones, p);
        NoneWithinEmpty(zones, p);
      } else {
        StripLabel(domains, LastLabel(p), ZoneName(Shorter(p)));
        ZoneNameLength(Shorter(p));
        k := LongestPrefix(domains, zones, Shorter(p));
        forall j | 0 <= j < |zones| ensures Within(p, zones[j]) <==> Within(Shorter(p), zones[j]) {
          WithinShorter(p, zones[j]);
        }
      }
    }
  }

  lemma NoneWithinEmpty(zones: seq<Prefix>, p: Prefix)
    requires Size(p) == 0 && p !in zones
    ensures forall j :: 0 <= j < |zones| ==> !Within(p, zones[j])
  {
    forall j | 0 <= j < |zones| ensures !Within(p, zones[j]) {
      assert zones[j] != p;
    }
  }

  /** `matchReverse`. */
  function MatchReverse<D>(m: Manager<D>, a: Address): Option<D> {
    Match(m, ZoneName(Host(a)))
  }

  /** The headline: with reverse zones and no wild card, an address is served by the zone of the
      longest prefix that contains it, and by nobody when no zone contains it. */
  lemma MatchReverseIsLongestPrefix<D(!new)>(m: Manager<D>, zones: seq<Prefix>, a: Address)
    requires m.wildcard.None? && NamedAfter(m.domains, zones)
    ensures match MatchReverse(m, a)
            case Some(d) => exists k: nat :: Longest(zones, Host(a), k) && d == m.domains[k].1
            case None => forall j :: 0 <= j < |zones| ==> !Within(Host(a), zones[j])
  {
    var k := LongestPrefix(m.domains, zones, Host(a));
  }
}
