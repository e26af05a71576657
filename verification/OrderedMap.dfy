/** `std::map<std::string, V>` as what iterating it yields: entries in ascending key order. */
module OrderedMap {
  import opened Text

  type Entries<V> = seq<(string, V)>

  predicate Ascending<V>(m: Entries<V>) {
    forall i, j :: 0 <= i < j < |m| ==> Less(m[i].0, m[j].0)
  }

  predicate Has<V>(m: Entries<V>, k: string) {
    exists i :: 0 <= i < |m| && m[i].0 == k
  }

  /** `std::map::insert`: an entry that is there already stays. */
  function Insert<V>(m: Entries<V>, k: string, v: V): Entries<V> {
    if m == [] then [(k, v)]
    else if k == m[0].0 then m
    else if Less(k, m[0].0) then [(k, v)] + m
    else [m[0]] + Insert(m[1..], k, v)
  }

  lemma TailLacks<V>(m: Entries<V>, k: string)
    requires m != []
    ensures Has(m, k) <==> m[0].0 == k || Has(m[1..], k)
  {
    if Has(m, k) && m[0].0 != k {
      var i :| 0 <= i < |m| && m[i].0 == k;
      assert m[1..][i - 1].0 == k;
    }
  }

  /** Inserting a new key splices one entry in and leaves the others in place. */
  lemma {:induction false} InsertSplices<V>(m: Entries<V>, k: string, v: V) returns (at: nat)
    requires !Has(m, k)
    ensures at <= |m| && Insert(m, k, v) == m[..at] + [(k, v)] + m[at..]
    ensures forall i :: 0 <= i < at ==> !Less(k, m[i].0)
    ensures at < |m| ==> Less(k, m[at].0)
    decreases |m|
  {
    if m == [] || Less(k, m[0].0) {
      at := 0;
      if m != [] { assert m[0].0 != k; }
    } else {
      TailLacks(m, k);
      var rest := InsertSplices(m[1..], k, v);
      at := rest + 1;
      assert m[..at] == [m[0]] + m[1..][..rest] && m[at..] == m[1..][rest..];
    }
  }

  lemma InsertAscending<V>(m: Entries<V>, k: string, v: V)
    requires Ascending(m) && !Has(m, k)
    ensures Ascending(Insert(m, k, v))
  {
    var at := InsertSplices(m, k, v);
    var r := Insert(m, k, v);
    forall i, j | 0 <= i < j < |r| ensures Less(r[i].0, r[j].0) {
      SplicedLess(m, k, v, at, i, j);
    }
  }

  lemma SplicedLess<V>(m: Entries<V>, k: string, v: V, at: nat, i: nat, j: nat)
    requires Ascending(m) && !Has(m, k)
    requires at <= |m| && (forall i :: 0 <= i < at ==> !Less(k, m[i].0)) && (at < |m| ==> Less(k, m[at].0))
    requires i < j <= |m|
    ensures var r := m[..at] + [(k, v)] + m[at..]; Less(r[i].0, r[j].0)
  {
    if j == at {
      LessTotal(m[i].0, k);
    } else if i == at {
      if at < j - 1 { LessTransitive(k, m[at].0, m[j - 1].0); }
    }
  }

  /** Inserting a new key adds one entry and alters none. */
  lemma InsertGrows<V>(m: Entries<V>, k: string, v: V)
    requires !Has(m, k)
    ensures |Insert(m, k, v)| == |m| + 1
    ensures (k, v) in Insert(m, k, v)
    ensures forall e :: e in m ==> e in Insert(m, k, v)
    ensures forall e :: e in Insert(m, k, v) ==> e in m || e == (k, v)
  {
    var at := InsertSplices(m, k, v);
    assert m == m[..at] + m[at..];
    assert (m[..at] + [(k, v)] + m[at..])[at] == (k, v);
  }

  lemma InsertHas<V>(m: Entries<V>, k: string, v: V, x: string)
    requires !Has(m, k)
    ensures Has(Insert(m, k, v), x) <==> Has(m, x) || x == k
  {
    InsertGrows(m, k, v);
    var r := Insert(m, k, v);
    if Has(m, x) {
      var i :| 0 <= i < |m| && m[i].0 == x;
      assert m[i] in r;
      var j :| 0 <= j < |r| && r[j] == m[i];
    }
    if x == k {
      var j :| 0 <= j < |r| && r[j] == (k, v);
    }
    if Has(r, x) {
      var j :| 0 <= j < |r| && r[j].0 == x;
      assert r[j] in r;
      if x != k { var i :| 0 <= i < |m| && m[i] == r[j]; }
    }
  }
}
