/** Reverse zones as blocks of numbers.  An address is the number its octets spell, most significant
    first; a zone is the block of addresses that share its leading bits.  The reverse zone found for an
    address by its name is the smallest configured block that holds its number.
 */
module AddressBlocks {
  import opened Text
  import opened DomainMatch
  import opened ReverseNames

  function Power(base: nat, n: nat): nat {
    if n == 0 then 1 else base * Power(base, n - 1)
  }

  /** The number that digits spell, most significant first. */
  function Number(digits: seq<int>, base: nat): int {
    if digits == [] then 0 else Number(digits[..|digits| - 1], base) * base + digits[|digits| - 1]
  }

  ghost predicate Digits(s: seq<int>, base: nat) {
    forall i :: 0 <= i < |s| ==> 0 <= s[i] < base
  }

  function AddressNumber(a: Address): int {
    Number(a.octets, 256)
  }

  /** How many leading bits the addresses of a zone share, and the number those bits spell. */
  function ZoneBits(zone: Prefix): nat {
    if zone.P4? then 8 * |zone.units4| else 4 * |zone.units6|
  }

  function ZoneNumber(zone: Prefix): int {
    if zone.P4? then Number(zone.units4, 256) else Number(zone.units6, 16)
  }

  /** The number `x` lies in block `z` of size `block`. */
  predicate InBlock(x: int, z: int, block: nat) {
    z * block <= x < (z + 1) * block
  }

  /** The address belongs to the family of the zone and has the leading bits of the zone. */
  predicate Holds(zone: Prefix, a: Address) {
    && zone.P4? == a.V4?
    && ZoneBits(zone) <= 8 * |a.octets|
    && InBlock(AddressNumber(a), ZoneNumber(zone), Power(2, 8 * |a.octets| - ZoneBits(zone)))
  }

  // ----------------------------------------------------------------- nibbles and octets

  /** Splitting octets into nibbles does not change the number they spell. */
  lemma {:induction false} NibblesSameNumber(octets: seq<Octet>)
    ensures Number(Nibbles(octets), 16) == Number(octets, 256)
  {
    if octets != [] {
      var init, o := octets[..|octets| - 1], octets[|octets| - 1];
      var n, m := Nibbles(octets), Nibbles(init) + [o / 16];
      assert n[..|n| - 1] == m && m[..|m| - 1] == Nibbles(init);
      assert Number(n, 16) == (Number(Nibbles(init), 16) * 16 + o / 16) * 16 + o % 16;
      NibblesSameNumber(init);
    }
  }

  lemma {:induction false} PowerOfPower(k: nat, n: nat)
    requires k == 4 || k == 8
    ensures Power(Power(2, k), n) == Power(2, k * n)
  {
    if n > 0 {
      PowerOfPower(k, n - 1);
      PowerAdds(k, k * (n - 1));
    }
  }

  lemma {:induction false} PowerAdds(a: nat, b: nat)
    ensures Power(2, a + b) == Power(2, a) * Power(2, b)
  {
    if a > 0 {
      PowerAdds(a - 1, b);
      assert Power(2, a + b) == 2 * Power(2, a - 1 + b);
    }
  }

  lemma SmallPowers()
    ensures Power(2, 4) == 16 && Power(2, 8) == 256
  {
    assert Power(2, 2) == 4;
    assert Power(2, 4) == 16;
    assert Power(2, 6) == 64;
  }

  // ----------------------------------------------------------------- leading digits

  /** A number lies in the block of its leading digits. */
  lemma {:induction false} LeadingDigits(s: seq<int>, base: nat, k: nat)
    requires Digits(s, base) && k <= |s|
    ensures InBlock(Number(s, base), Number(s[..k], base), Power(base, |s| - k))
    decreases |s|
  {
    if k == |s| {
      assert s[..k] == s;
    } else {
      var init := s[..|s| - 1];
      LeadingDigits(init, base, k);
      assert init[..k] == s[..k];
      OneMoreDigit(Number(init, base), Number(s[..k], base), Power(base, |init| - k), base, s[|s| - 1]);
    }
  }

  lemma OneMoreDigit(x: int, z: int, block: nat, base: nat, digit: int)
    requires InBlock(x, z, block) && 0 <= digit < base
    ensures InBlock(x * base + digit, z, base * block)
  {
    assert (z * block) * base <= x * base;
    assert (x + 1) * base <= ((z + 1) * block) * base;
    assert (z * block) * base == z * (base * block);
    assert ((z + 1) * block) * base == (z + 1) * (base * block);
  }

  lemma BlocksApart(z: int, w: int, block: nat)
    ensures z < w ==> (z + 1) * block <= w * block
  {
  }

  lemma OneBlock(x: int, z: int, w: int, block: nat)
    requires InBlock(x, z, block) && InBlock(x, w, block)
    ensures z == w
  {
    BlocksApart(z, w, block);
    BlocksApart(w, z, block);
  }

  /** Digit strings of one length spell different numbers. */
  lemma {:induction false} SameNumber(s: seq<int>, t: seq<int>, base: nat)
    requires |s| == |t| && Digits(s, base) && Digits(t, base) && Number(s, base) == Number(t, base)
    ensures s == t
  {
    if s != [] {
      var n := |s| - 1;
      LastDigit(Number(s[..n], base), s[n], Number(t[..n], base), t[n], base);
      SameNumber(s[..n], t[..n], base);
      assert s == s[..n] + [s[n]] && t == t[..n] + [t[n]];
    }
  }

  lemma LastDigit(x: int, d: int, y: int, e: int, base: nat)
    requires 0 <= d < base && 0 <= e < base && x * base + d == y * base + e
    ensures x == y && d == e
  {
    BlocksApart(x, y, base);
    BlocksApart(y, x, base);
  }

  /** Digits lead a number exactly when the number lies in their block. */
  lemma {:induction false} LeadsExactly(s: seq<int>, z: seq<int>, base: nat)
    requires Digits(s, base) && Digits(z, base) && |z| <= |s|
    ensures z <= s <==> InBlock(Number(s, base), Number(z, base), Power(base, |s| - |z|))
  {
    LeadingDigits(s, base, |z|);
    assert z <= s <==> s[..|z|] == z;
    if InBlock(Number(s, base), Number(z, base), Power(base, |s| - |z|)) {
      OneBlock(Number(s, base), Number(z, base), Number(s[..|z|], base), Power(base, |s| - |z|));
      SameNumber(z, s[..|z|], base);
    }
  }

  /** A zone contains an address, unit by unit, exactly when it holds the number of the address. */
  lemma {:induction false} WithinIsHolds(a: Address, zone: Prefix)
    ensures Within(Host(a), zone) <==> Holds(zone, a)
  {
    SmallPowers();
    if zone.P4? && a.V4? && |zone.units4| <= |a.octets| {
      LeadsExactly(a.octets, zone.units4, 256);
      PowerOfPower(8, |a.octets| - |zone.units4|);
    } else if zone.P6? && a.V6? && |zone.units6| <= 2 * |a.octets| {
      NibblesSameNumber(a.octets);
      LeadsExactly(Nibbles(a.octets), zone.units6, 16);
      PowerOfPower(4, 2 * |a.octets| - |zone.units6|);
    }
  }

  // ----------------------------------------------------------------- the zone of an address

  /** Zone `k` is the smallest of the blocks that hold the address. */
  ghost predicate SmallestBlock(zones: seq<Prefix>, a: Address, k: nat) {
    && k < |zones| && Holds(zones[k], a)
    && forall j :: 0 <= j < |zones| && Holds(zones[j], a) ==> ZoneBits(zones[j]) <= ZoneBits(zones[k])
  }

  /** With reverse zones and no wild card, an address is served by the smallest configured block of
      addresses that holds its number, and by nobody when no block holds it. */
  lemma {:induction false} MatchReverseIsSmallestBlock<D(!new)>(m: Manager<D>, zones: seq<Prefix>, a: Address)
    requires m.wildcard.None? && NamedAfter(m.domains, zones)
    ensures match MatchReverse(m, a)
            case Some(d) => exists k: nat :: SmallestBlock(zones, a, k) && d == m.domains[k].1
            case None => forall j :: 0 <= j < |zones| ==> !Holds(zones[j], a)
  {
    forall j | 0 <= j < |zones| ensures Within(Host(a), zones[j]) <==> Holds(zones[j], a) {
      WithinIsHolds(a, zones[j]);
    }
    var k := LongestPrefix(m.domains, zones, Host(a));
    if MatchReverse(m, a).Some? { assert SmallestBlock(zones, a, k); }
  }

  // ----------------------------------------------------------------- what the labels say

  /** The first label of a reverse name is the last unit: in decimal for an octet, and for a nibble the
      capital hexadecimal digit. */
  lemma LabelReads(p: Prefix)
    requires Size(p) > 0
    ensures p.P4? ==> DecimalValue(LastLabel(p)) == p.units4[|p.units4| - 1]
    ensures p.P6? ==> LastLabel(p) == ["0123456789ABCDEF"[p.units6[|p.units6| - 1]]]
  {
    if p.P4? { DecimalRoundTrip(p.units4[|p.units4| - 1]); }
  }
}
