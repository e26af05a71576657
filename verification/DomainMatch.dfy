/** Which configured DNS domain serves a name: `DdnsDomainListMgr` of d2_config.cc.

    The manager scans its whole map once and keeps the longest name that ends the requested one on
    a label boundary.  The reference here knows nothing of lengths: it strips leading labels one at
    a time until what is left is the name of a configured domain.
 */
module DomainMatch {
  import opened Text

  const WILDCARD := "*"

  /** A domain map in its iteration order.  Nothing below depends on the order being sorted or on
      the names being distinct. */
  type Domains<D> = seq<(string, D)>

  /** What `DdnsDomainListMgr` holds: the map and the remembered wild card domain. */
  datatype Manager<D> = Manager(domains: Domains<D>, wildcard: Option<D>)

  // ----------------------------------------------------------------- reference

  /** Position of the first dot, or the length when there is none. */
  function FirstDot(s: string): (i: nat)
    ensures i <= |s|
    ensures forall k :: 0 <= k < i ==> s[k] != '.'
    ensures i < |s| ==> s[i] == '.'
  {
    if s == "" || s[0] == '.' then 0 else 1 + FirstDot(s[1..])
  }

  /** The first entry, in map order, carrying this name in any letter case. */
  function FirstNamed<D>(domains: Domains<D>, name: string): Option<D> {
    if domains == [] then None
    else if IEquals(domains[0].0, name) then Some(domains[0].1)
    else FirstNamed(domains[1..], name)
  }

  /** Strip leading labels until a configured name is left; give up when nothing is left to strip. */
  function LabelSearch<D>(domains: Domains<D>, name: string): Option<D>
    decreases |name|
  {
    var hit := FirstNamed(domains, name);
    var dot := FirstDot(name);
    if hit.Some? then hit
    else if dot + 1 < |name| then LabelSearch(domains, name[dot + 1..])
    else None
  }

  function Reference<D>(m: Manager<D>, fqdn: string): Option<D> {
    var hit := LabelSearch(m.domains, fqdn);
    if hit.Some? then hit else m.wildcard
  }

  /** The entry stored under exactly this key, if any. */
  function Lookup<D>(domains: Domains<D>, key: string): Option<D> {
    if domains == [] then None
    else if domains[0].0 == key then Some(domains[0].1)
    else Lookup(domains[1..], key)
  }

  /** The manager remembers the wild card of the map it holds, and no other. */
  predicate Consistent<D(==)>(m: Manager<D>) {
    m.wildcard == Lookup(m.domains, WILDCARD)
  }

  // ----------------------------------------------------------------- the manager's operations

  /** `setDomains`: a missing wild card leaves the remembered one alone. */
  function SetDomains<D>(m: Manager<D>, domains: Domains<D>): Manager<D> {
    var w := Lookup(domains, WILDCARD);
    Manager(domains, if w.Some? then w else m.wildcard)
  }

  /** `matchDomain`, with the "one domain to rule them all" short cut in front. */
  function Match<D>(m: Manager<D>, fqdn: string): Option<D> {
    if |m.domains| == 1 && m.wildcard.Some? then m.wildcard else Reference(m, fqdn)
  }

  /** Offset `o` starts a label of `s`. */
  predicate Boundary(s: string, o: nat) {
    o == 0 || (o <= |s| && s[o - 1] == '.')
  }

  /** The scan's test on one map key that is shorter than the name. */
  predicate EndsWith(s: string, n: string) {
    |n| < |s| && s[|s| - |n| - 1] == '.' && IEquals(s[|s| - |n|..], n)
  }

  lemma {:induction false} StripOnce<D>(domains: Domains<D>, rest: string)
    requires FirstNamed(domains, rest).None?
    ensures LabelSearch(domains, rest)
         == if FirstDot(rest) + 1 < |rest| then LabelSearch(domains, rest[FirstDot(rest) + 1..]) else None
  {
  }

  /** One round of stripping from offset `o`: on to the next label start. */
  lemma Strip<D>(domains: Domains<D>, s: string, o: nat) returns (next: nat)
    requires o <= |s| && FirstNamed(domains, s[o..]).None?
    ensures o < next
    ensures next <= |s| ==> Boundary(s, next)
    ensures forall p :: o < p < next && p <= |s| ==> !Boundary(s, p)
    ensures LabelSearch(domains, s[o..]) == if next < |s| then LabelSearch(domains, s[next..]) else None
  {
    var rest := s[o..];
    StripOnce(domains, rest);
    var dot := FirstDot(rest);
    next := o + dot + 1;
    assert next < |s| ==> rest[dot + 1..] == s[next..];
  }

  /** Stripping may skip every boundary at which no configured name starts. */
  lemma {:induction false} SkipTo<D>(domains: Domains<D>, s: string, o: nat, target: nat)
    requires o <= target < |s|
    requires Boundary(s, target)
    requires forall p :: o <= p < target && (p == o || Boundary(s, p)) ==> FirstNamed(domains, s[p..]).None?
    ensures LabelSearch(domains, s[o..]) == LabelSearch(domains, s[target..])
    decreases target - o
  {
    if o < target {
      var next := Strip(domains, s, o);
      SkipTo(domains, s, next, target);
    }
  }

  /** When no label boundary starts a configured name, the search finds nothing. */
  lemma {:induction false} NothingFound<D>(domains: Domains<D>, s: string, o: nat)
    requires o <= |s|
    requires forall p :: o <= p < |s| && (p == o || Boundary(s, p)) ==> FirstNamed(domains, s[p..]).None?
    requires o == |s| ==> FirstNamed(domains, s[o..]).None?
    ensures LabelSearch(domains, s[o..]).None?
    decreases |s| - o
  {
    var next := Strip(domains, s, o);
    if next < |s| { NothingFound(domains, s, next); }
  }

  /** The first entry with this name, when no entry before position `k` carries it. */
  lemma {:induction false} FirstNamedAt<D>(domains: Domains<D>, name: string, k: nat)
    requires k < |domains| && IEquals(domains[k].0, name)
    requires forall i :: 0 <= i < k ==> !IEquals(domains[i].0, name)
    ensures FirstNamed(domains, name) == Some(domains[k].1)
  {
    if k > 0 {
      FirstNamedAt(domains[1..], name, k - 1);
    }
  }

  lemma IEqualsLength(a: string, b: string)
    requires IEquals(a, b)
    ensures |a| == |b|
  {
    assert |Fold(a)| == |Fold(b)|;
  }

  /** What the scan has established after looking at the first `n` entries, `ends` being its test. */
  ghost predicate Scanned<D(!new)>(domains: Domains<D>, ends: string -> bool, n: nat, matchLen: nat, best: Option<D>)
    requires n <= |domains|
  {
    && (forall i :: 0 <= i < n && ends(domains[i].0) ==> |domains[i].0| <= matchLen)
    && (best.None? <==> matchLen == 0)
    && (best.Some? ==> exists k :: BestAt(domains, ends, n, matchLen, best.value, k))
  }

  /** Entry `k` is the first of the longest keys that end the name. */
  ghost predicate BestAt<D(!new)>(domains: Domains<D>, ends: string -> bool, n: nat, matchLen: nat, best: D, k: nat)
    requires n <= |domains|
  {
    && k < n && ends(domains[k].0) && |domains[k].0| == matchLen && best == domains[k].1
    && forall i :: 0 <= i < k && ends(domains[i].0) ==> |domains[i].0| < matchLen
  }

  /** One more entry: keep the better of what we have and the new entry. */
  lemma ScanStep<D(!new)>(domains: Domains<D>, ends: string -> bool, n: nat, matchLen: nat, best: Option<D>)
    requires n < |domains| && Scanned(domains, ends, n, matchLen, best)
    ensures if ends(domains[n].0) && |domains[n].0| > matchLen
            then Scanned(domains, ends, n + 1, |domains[n].0|, Some(domains[n].1))
            else Scanned(domains, ends, n + 1, matchLen, best)
  {
    if ends(domains[n].0) && |domains[n].0| > matchLen {
      assert BestAt(domains, ends, n + 1, |domains[n].0|, domains[n].1, n);
    } else if best.Some? {
      var k :| BestAt(domains, ends, n, matchLen, best.value, k);
      assert BestAt(domains, ends, n + 1, matchLen, best.value, k);
    }
  }

  lemma {:induction false} NoneNamed<D>(domains: Domains<D>, name: string)
    requires forall i :: 0 <= i < |domains| ==> !IEquals(domains[i].0, name)
    ensures FirstNamed(domains, name).None?
  {
    if domains != [] { NoneNamed(domains[1..], name); }
  }

  lemma {:induction false} NamedIndex<D>(domains: Domains<D>, name: string) returns (k: nat)
    requires FirstNamed(domains, name).Some?
    ensures k < |domains| && IEquals(domains[k].0, name) && FirstNamed(domains, name).value == domains[k].1
  {
    if IEquals(domains[0].0, name) {
      k := 0;
    } else {
      var j := NamedIndex(domains[1..], name);
      k := j + 1;
    }
  }

  lemma DifferentLengths(a: string, b: string)
    requires |a| != |b|
    ensures !IEquals(b, a)
  {
    assert |Fold(a)| == |a| && |Fold(b)| == |b|;
  }

  lemma EndsWithAt(s: string, n: string, p: nat)
    requires 0 < p <= |s| && Boundary(s, p) && IEquals(n, s[p..])
    ensures EndsWith(s, n) && |n| == |s| - p
  {
    IEqualsLength(n, s[p..]);
    assert s[|s| - |n|..] == s[p..];
  }

  /** A finished scan that met no exact name has found what label stripping finds. */
  lemma ScanIsSearch<D(!new)>(domains: Domains<D>, s: string, ends: string -> bool, matchLen: nat, best: Option<D>)
    requires forall n :: ends(n) == EndsWith(s, n)
    requires forall i :: 0 <= i < |domains| ==> !IEquals(domains[i].0, s)
    requires Scanned(domains, ends, |domains|, matchLen, best)
    ensures LabelSearch(domains, s) == best
  {
    assert s[0..] == s;
    forall p | 0 <= p < |s| - matchLen && Boundary(s, p) ensures FirstNamed(domains, s[p..]).None? {
      NoLongerName(domains, s, ends, matchLen, p);
    }
    if best.None? {
      NoneNamed(domains, s[0..]);
      NothingFound(domains, s, 0);
    } else {
      var k :| BestAt(domains, ends, |domains|, matchLen, best.value, k);
      BestIsNamed(domains, s, ends, matchLen, best.value, k);
      SkipTo(domains, s, 0, |s| - matchLen);
    }
  }

  lemma BestIsNamed<D(!new)>(domains: Domains<D>, s: string, ends: string -> bool, matchLen: nat, best: D, k: nat)
    requires forall n :: ends(n) == EndsWith(s, n)
    requires BestAt(domains, ends, |domains|, matchLen, best, k)
    ensures matchLen < |s| && Boundary(s, |s| - matchLen)
    ensures FirstNamed(domains, s[|s| - matchLen..]) == Some(best)
  {
    assert EndsWith(s, domains[k].0);
    var target := |s| - matchLen;
    forall i | 0 <= i < k ensures !IEquals(domains[i].0, s[target..]) {
      if IEquals(domains[i].0, s[target..]) { EndsWithAt(s, domains[i].0, target); }
    }
    FirstNamedAt(domains, s[target..], k);
  }

  lemma NoLongerName<D>(domains: Domains<D>, s: string, ends: string -> bool, matchLen: nat, p: nat)
    requires forall n :: ends(n) == EndsWith(s, n)
    requires forall i :: 0 <= i < |domains| ==> !IEquals(domains[i].0, s)
    requires forall i :: 0 <= i < |domains| && ends(domains[i].0) ==> |domains[i].0| <= matchLen
    requires p < |s| - matchLen && Boundary(s, p)
    ensures FirstNamed(domains, s[p..]).None?
  {
    assert p == 0 ==> s[p..] == s;
    forall i | 0 <= i < |domains| ensures !IEquals(domains[i].0, s[p..]) {
      if p > 0 && IEquals(domains[i].0, s[p..]) { EndsWithAt(s, domains[i].0, p); }
    }
    NoneNamed(domains, s[p..]);
  }

  /** `DdnsDomainListMgr` itself. */
  class DdnsDomainListMgr<D(!new)> {
    var domains: Domains<D>
    var wildcard: Option<D>

    function Model(): Manager<D>
      reads this
    {
      Manager(domains, wildcard)
    }

    constructor ()
      ensures Model() == Manager([], None)
    {
      domains, wildcard := [], None;
    }

    method SetDomainMap(newDomains: Domains<D>)
      modifies this
      ensures Model() == SetDomains(old(Model()), newDomains)
    {
      domains := newDomains;
      var w := Lookup(domains, WILDCARD);
      if w.Some? {
        wildcard := w;
      }
    }

    /** The test on one map entry: an exact match, or the better of it and the best so far. */
    method Consider(fqdn: string, i: nat, matchLen: nat, best: Option<D>, ghost ends: string -> bool)
      returns (exact: bool, len: nat, found: Option<D>)
      requires i < |domains| && (forall n :: ends(n) == EndsWith(fqdn, n)) && Scanned(domains, ends, i, matchLen, best)
      ensures exact <==> IEquals(domains[i].0, fqdn)
      ensures Scanned(domains, ends, i + 1, len, found)
    {
      var name := domains[i].0;
      ScanStep(domains, ends, i, matchLen, best);
      exact, len, found := false, matchLen, best;
      if |fqdn| < |name| {
        DifferentLengths(fqdn, name);
      } else if |fqdn| == |name| {
        exact := IEquals(fqdn, name);
      } else {
        DifferentLengths(fqdn, name);
        var offset := |fqdn| - |name|;
        if fqdn[offset - 1] == '.' && IEquals(fqdn[offset..], name) && |name| > matchLen {
          len, found := |name|, Some(domains[i].1);
        }
      }
    }

    /** The linear scan of the source, every index checked, against the label-stripping reference. */
    method MatchDomain(fqdn: string) returns (domain: Option<D>)
      ensures domain == Match(Model(), fqdn)
    {
      if |domains| == 1 && wildcard.Some? {
        return wildcard;
      }
      var matchLen: nat := 0;
      var best: Option<D> := None;
      ghost var ends := (n: string) => EndsWith(fqdn, n);
      var i := 0;
      while i < |domains|
        invariant 0 <= i <= |domains|
        invariant forall k :: 0 <= k < i ==> !IEquals(domains[k].0, fqdn)
        invariant Scanned(domains, ends, i, matchLen, best)
      {
        var exact;
        exact, matchLen, best := Consider(fqdn, i, matchLen, best, ends);
        if exact {
          FirstNamedAt(domains, fqdn, i);
          return Some(domains[i].1);
        }
        i := i + 1;
      }
      ScanIsSearch(domains, fqdn, ends, matchLen, best);
      domain := if best.None? then wildcard else best;
    }
  }

  // ----------------------------------------------------------------- the short cut

  lemma LookupIsNamed<D>(domains: Domains<D>, key: string)
    requires |domains| == 1 && Lookup(domains, key).Some?
    ensures domains[0] == (key, Lookup(domains, key).value)
  {
  }

  lemma {:induction false} SingleSearch<D>(domains: Domains<D>, name: string)
    requires |domains| == 1
    ensures LabelSearch(domains, name) == None || LabelSearch(domains, name) == Some(domains[0].1)
    decreases |name|
  {
    var named := FirstNamed(domains, name);
    assert FirstNamed(domains[1..], name) == None;
    if named.None? { StripOnce(domains, name); }
    if FirstDot(name) + 1 < |name| { SingleSearch(domains, name[FirstDot(name) + 1..]); }
  }

  /** The short cut is invisible for a manager whose map was set once, as the parser and the copy
      constructor do. */
  lemma ShortCutAgrees<D(!new)>(m: Manager<D>, fqdn: string)
    requires Consistent(m)
    ensures Match(m, fqdn) == Reference(m, fqdn)
  {
    if |m.domains| == 1 && m.wildcard.Some? {
      LookupIsNamed(m.domains, WILDCARD);
      SingleSearch(m.domains, fqdn);
    }
  }

  /** Exactly when the short cut may be trusted on every name: the sole domain is the remembered one. */
  lemma ShortCutExact<D(!new)>(m: Manager<D>)
    requires |m.domains| == 1 && m.wildcard.Some?
    ensures (forall fqdn :: Match(m, fqdn) == Reference(m, fqdn)) <==> m.wildcard.value == m.domains[0].1
  {
    if forall fqdn :: Match(m, fqdn) == Reference(m, fqdn) {
      var name := m.domains[0].0;
      assert Match(m, name) == Reference(m, name);
      assert LabelSearch(m.domains, name) == FirstNamed(m.domains, name) by { FirstNamedAt(m.domains, name, 0); }
      FirstNamedAt(m.domains, name, 0);
    } else {
      var fqdn :| Match(m, fqdn) != Reference(m, fqdn);
      SingleSearch(m.domains, fqdn);
    }
  }

  /** Setting a map keeps the manager consistent unless an older wild card survives the change. */
  lemma SetDomainsConsistent<D(!new)>(m: Manager<D>, domains: Domains<D>)
    ensures Consistent(SetDomains(m, domains)) <==> Lookup(domains, WILDCARD).Some? || m.wildcard.None?
  {
  }

  /** A length no key of the map has or exceeds. */
  function Beyond<D>(domains: Domains<D>): (n: nat)
    ensures forall i :: 0 <= i < |domains| ==> |domains[i].0| < n
  {
    if domains == [] then 0
    else
      var rest := Beyond(domains[1..]);
      if |domains[0].0| < rest then rest else |domains[0].0| + 1
  }

  /** A name of one label, longer than every key, is no configured name and ends in none. */
  lemma LongLabelUnfound<D>(domains: Domains<D>, name: string)
    requires |name| >= Beyond(domains) && forall i :: 0 <= i < |name| ==> name[i] != '.'
    ensures LabelSearch(domains, name).None?
  {
    forall i | 0 <= i < |domains| ensures !IEquals(domains[i].0, name) {
      DifferentLengths(name, domains[i].0);
    }
    NoneNamed(domains, name);
  }

  /** What a manager answers after `setDomains`, exactly: for every name the same as a new manager with
      this map, if and only if the map has a wild card or there was none before. Otherwise some name
      is sent to a domain that is no longer configured. */
  lemma {:induction false} SetDomainsAnswers<D(!new)>(m: Manager<D>, domains: Domains<D>)
    ensures (forall fqdn :: Match(SetDomains(m, domains), fqdn) == Match(SetDomains(Manager([], None), domains), fqdn))
            <==> Lookup(domains, WILDCARD).Some? || m.wildcard.None?
  {
    if Lookup(domains, WILDCARD).None? && m.wildcard.Some? {
      var name := seq(Beyond(domains), _ => 'x');
      LongLabelUnfound(domains, name);
      assert Match(SetDomains(m, domains), name) == m.wildcard;
      assert Match(SetDomains(Manager([], None), domains), name) == None;
    }
  }

  /** The surviving wild card in action: after the only domain becomes "a.", every name at all
      is still sent to the domain that used to be the wild card. */
  lemma StaleWildcardCaptures<D(!new)>(old_: D, new_: D, fqdn: string)
    requires old_ != new_
    ensures var m := SetDomains(SetDomains(Manager([], None), [(WILDCARD, old_)]), [("a.", new_)]);
            && !Consistent(m)
            && Match(m, fqdn) == Some(old_)
            && Reference(m, "a.") == Some(new_)
  {
    var ds := [("a.", new_)];
    assert Lookup(ds, WILDCARD) == Lookup(ds[1..], WILDCARD) == None;
    FirstNamedAt(ds, "a.", 0);
  }

  /** A blank map key is dead for every non-empty name. */
  lemma {:induction false} BlankIsDead<D(!new)>(domains: Domains<D>, k: nat, name: string)
    requires k < |domains| && domains[k].0 == "" && name != ""
    ensures LabelSearch(domains, name) == LabelSearch(domains[..k] + domains[k + 1..], name)
    decreases |name|
  {
    BlankNotNamed(domains, k, name);
    var dot := FirstDot(name);
    if dot + 1 < |name| { BlankIsDead(domains, k, name[dot + 1..]); }
  }

  lemma {:induction false} BlankNotNamed<D>(domains: Domains<D>, k: nat, name: string)
    requires k < |domains| && domains[k].0 == "" && name != ""
    ensures FirstNamed(domains, name) == FirstNamed(domains[..k] + domains[k + 1..], name)
  {
    assert !IEquals("", name) by { assert |Fold(name)| == |name|; }
    if k > 0 {
      BlankNotNamed(domains[1..], k - 1, name);
      assert (domains[..k] + domains[k + 1..])[1..] == domains[1..][..k - 1] + domains[1..][k..];
    } else {
      assert domains[..0] + domains[1..] == domains[1..];
    }
  }
}
