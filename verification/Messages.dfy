/** The message manual generator, system_messages.cc: the dictionary that collects the messages of
    all files under unique keys, and the loop that prints it in key order, section by section.
 */
module Messages {
  import opened Text
  import opened OrderedMap

  datatype Details = Details(text: string, description: seq<string>, sname: string, filename: string)

  datatype Message = Message(id: string, text: string, description: seq<string>, filename: string)

  type Dictionary = Entries<Details>

  // ----------------------------------------------------------------- keys

  /** A repeated id with its copy number. */
  function Suffixed(id: string, i: nat): string {
    id + " (" + Decimal(i) + ")"
  }

  function FromEnd(s: string, k: nat): char
    requires k < |s|
  {
    s[|s| - 1 - k]
  }

  /** Read from its end, a suffixed id is a parenthesis, digits, and the first non-digit is the
      opening parenthesis. */
  lemma SuffixedFromEnd(id: string, i: nat)
    ensures var s, n := Suffixed(id, i), |Decimal(i)|;
            && |s| == |id| + n + 3 && FromEnd(s, n + 1) == '('
            && forall k :: 1 <= k <= n ==> '0' <= FromEnd(s, k) <= '9'
  {
    var s, n := Suffixed(id, i), |Decimal(i)|;
    forall k | 1 <= k <= n ensures FromEnd(s, k) == Decimal(i)[n - k] {}
  }

  /** Different copy numbers, or different ids, give different keys. */
  lemma SuffixedInjective(a: string, i: nat, b: string, j: nat)
    requires Suffixed(a, i) == Suffixed(b, j)
    ensures a == b && i == j
  {
    SuffixedFromEnd(a, i);
    SuffixedFromEnd(b, j);
    var s, n := Suffixed(a, i), |Decimal(i)|;
    assert n == |Decimal(j)|;
    assert Decimal(i) == s[|s| - 1 - n..|s| - 1] == Decimal(j);
    DecimalInjective(i, j);
    assert a == s[..|s| - n - 3] == b;
  }

  predicate Taken(d: Dictionary, id: string, i: nat) {
    Has(d, Suffixed(id, i))
  }

  function KeysOf(d: Dictionary): (r: set<string>)
    ensures |r| <= |d|
    ensures forall k :: k in r <==> Has(d, k)
  {
    if d == [] then {} else
      var rest := KeysOf(d[1..]);
      assert forall k :: Has(d, k) <==> d[0].0 == k || Has(d[1..], k) by {
        forall k ensures Has(d, k) <==> d[0].0 == k || Has(d[1..], k) { TailLacks(d, k); }
      }
      {d[0].0} + rest
  }

  /** The first `i` copy numbers of an id as keys. */
  ghost function Copies(id: string, i: nat): (r: set<string>)
    ensures |r| == i + 1
    ensures forall k :: k in r <==> k == id || exists j :: 1 <= j <= i && k == Suffixed(id, j)
  {
    if i == 0 then {id} else
      var rest := Copies(id, i - 1);
      NewCopy(id, i);
      rest + {Suffixed(id, i)}
  }

  lemma NewCopy(id: string, i: nat)
    requires i >= 1
    ensures Suffixed(id, i) != id && forall j :: 1 <= j < i ==> Suffixed(id, j) != Suffixed(id, i)
  {
    forall j | 1 <= j < i ensures Suffixed(id, j) != Suffixed(id, i) {
      if Suffixed(id, j) == Suffixed(id, i) { SuffixedInjective(id, j, id, i); }
    }
    assert |Suffixed(id, i)| > |id|;
  }

  /** The pigeonhole: an id and `i` of its copies can only be taken in a dictionary of more than `i`
      entries. */
  lemma TakenBound(d: Dictionary, id: string, i: nat)
    requires Has(d, id) && forall j :: 1 <= j <= i ==> Taken(d, id, j)
    ensures i + 1 <= |d|
  {
    var copies, keys := Copies(id, i), KeysOf(d);
    forall k | k in copies ensures k in keys {
      if k != id {
        var j :| 1 <= j <= i && k == Suffixed(id, j);
        assert Taken(d, id, j);
      }
    }
    SubsetSize(copies, keys);
  }

  /** The least free copy number from `i` on. */
  ghost function FirstFree(d: Dictionary, id: string, i: nat): (n: nat)
    requires i >= 1 && Has(d, id) && forall j :: 1 <= j < i ==> Taken(d, id, j)
    ensures n >= i && !Taken(d, id, n) && forall j :: 1 <= j < n ==> Taken(d, id, j)
    decreases |d| - i
  {
    if !Taken(d, id, i) then i
    else
      TakenBound(d, id, i);
      FirstFree(d, id, i + 1)
  }

  /** The key under which an id goes into the dictionary. */
  ghost function KeyFor(d: Dictionary, id: string): (key: string)
    ensures !Has(d, key)
  {
    if !Has(d, id) then id else Suffixed(id, FirstFree(d, id, 1))
  }

  // ----------------------------------------------------------------- sections

  function FirstUnderscore(s: string): (n: nat)
    ensures n <= |s| && (n < |s| ==> s[n] == '_') && forall i :: 0 <= i < n ==> s[i] != '_'
  {
    if s == "" || s[0] == '_' then 0
    else
      var n := FirstUnderscore(s[1..]) + 1;
      assert forall i :: 1 <= i < n ==> s[i] == s[1..][i - 1];
      n
  }

  /** The section of a message: its id up to the first underscore, or all of it. */
  function Section(id: string): string {
    id[..FirstUnderscore(id)]
  }

  // ----------------------------------------------------------------- descriptions

  predicate Blank(lines: seq<string>) {
    forall i :: 0 <= i < |lines| ==> lines[i] == ""
  }

  function DropLeading(lines: seq<string>): seq<string> {
    if lines == [] || lines[0] != "" then lines else DropLeading(lines[1..])
  }

  function DropTrailing(lines: seq<string>): seq<string> {
    if lines == [] || lines[|lines| - 1] != "" then lines else DropTrailing(lines[..|lines| - 1])
  }

  /** A description without the blank lines at its ends. */
  function Trimmed(lines: seq<string>): seq<string> {
    DropTrailing(DropLeading(lines))
  }

  lemma {:induction false} LeadingDropped(lines: seq<string>) returns (i: nat)
    ensures i <= |lines| && DropLeading(lines) == lines[i..] && Blank(lines[..i])
    ensures i < |lines| ==> lines[i] != ""
  {
    if lines == [] || lines[0] != "" {
      i := 0;
    } else {
      var rest := LeadingDropped(lines[1..]);
      i := rest + 1;
      assert lines[1..][rest..] == lines[i..] && lines[..i] == [lines[0]] + lines[1..][..rest];
    }
  }

  lemma {:induction false} TrailingDropped(lines: seq<string>) returns (j: nat)
    ensures j <= |lines| && DropTrailing(lines) == lines[..j] && Blank(lines[j..])
    ensures j > 0 ==> lines[j - 1] != ""
    decreases |lines|
  {
    if lines == [] || lines[|lines| - 1] != "" {
      j := |lines|;
    } else {
      j := TrailingDropped(lines[..|lines| - 1]);
      assert lines[..|lines| - 1][..j] == lines[..j] && lines[j..] == lines[..|lines| - 1][j..] + [lines[|lines| - 1]];
    }
  }

  /** Trimming takes blank lines off both ends and nothing else, and leaves none there. */
  lemma TrimmedMeans(lines: seq<string>) returns (i: nat, j: nat)
    ensures i <= j <= |lines| && Trimmed(lines) == lines[i..j] && Blank(lines[..i]) && Blank(lines[j..])
    ensures i < j ==> lines[i] != "" && lines[j - 1] != ""
  {
    i := LeadingDropped(lines);
    var n := TrailingDropped(lines[i..]);
    j := i + n;
    assert lines[i..][..n] == lines[i..j] && lines[i..][n..] == lines[j..];
    if n > 0 { assert lines[i..][n - 1] == lines[j - 1]; }
  }

  function Filed(m: Message): Details {
    Details(m.text, Trimmed(m.description), Section(m.id), m.filename)
  }

  // ----------------------------------------------------------------- adding

  ghost function Add(d: Dictionary, m: Message): Dictionary {
    Insert(d, KeyFor(d, m.id), Filed(m))
  }

  ghost function AddAll(d: Dictionary, ms: seq<Message>): Dictionary
    decreases |ms|
  {
    if ms == [] then d else AddAll(Add(d, ms[0]), ms[1..])
  }

  /** The dictionary after the first `i` of the messages. */
  lemma {:induction false} AddAllSplit(d: Dictionary, ms: seq<Message>, i: nat)
    requires i <= |ms|
    ensures AddAll(d, ms) == AddAll(AddAll(d, ms[..i]), ms[i..])
    decreases i
  {
    if i == 0 {
      assert ms[..0] == [] && ms[0..] == ms;
    } else {
      assert ms[..i][0] == ms[0] && ms[..i][1..] == ms[1..][..i - 1] && ms[1..][i - 1..] == ms[i..];
      AddAllSplit(Add(d, ms[0]), ms[1..], i - 1);
    }
  }

  /** Adding any number of messages adds that many entries and alters none. */
  lemma {:induction false} AddAllGrows(d: Dictionary, ms: seq<Message>)
    ensures |AddAll(d, ms)| == |d| + |ms|
    ensures forall e :: e in d ==> e in AddAll(d, ms)
    ensures Ascending(d) ==> Ascending(AddAll(d, ms))
    decreases |ms|
  {
    if ms != [] {
      var k := KeyFor(d, ms[0].id);
      InsertGrows(d, k, Filed(ms[0]));
      if Ascending(d) { InsertAscending(d, k, Filed(ms[0])); }
      AddAllGrows(Add(d, ms[0]), ms[1..]);
    }
  }

  /** Each message is in the final dictionary, under the key that was free when it came. */
  lemma EveryMessageFiled(d: Dictionary, ms: seq<Message>, i: nat)
    requires i < |ms|
    ensures var key, m := KeyFor(AddAll(d, ms[..i]), ms[i].id), ms[i];
            (key, Details(m.text, Trimmed(m.description), Section(m.id), m.filename)) in AddAll(d, ms)
  {
    var before := AddAll(d, ms[..i]);
    AddAllSplit(d, ms, i);
    InsertGrows(before, KeyFor(before, ms[i].id), Filed(ms[i]));
    assert ms[i..][0] == ms[i];
    AddAllGrows(Add(before, ms[i]), ms[i..][1..]);
  }

  // ----------------------------------------------------------------- copies are numbered in order

  function Count(ms: seq<Message>, id: string): nat {
    if ms == [] then 0 else Count(ms[..|ms| - 1], id) + if ms[|ms| - 1].id == id then 1 else 0
  }

  /** Neither id reads like a numbered copy of the other. */
  ghost predicate Apart(a: string, b: string) {
    forall j: nat :: a != Suffixed(b, j) && b != Suffixed(a, j)
  }

  /** Of an id that no other id imitates, `n` occurrences take the id itself and the copies 1 to n-1. */
  ghost predicate CopiesTaken(d: Dictionary, id: string, n: nat) {
    && (Has(d, id) <==> n > 0)
    && forall j: nat :: j >= 1 ==> (Taken(d, id, j) <==> j < n)
  }

  lemma CountStep(d: Dictionary, id: string, n: nat, m: Message)
    requires CopiesTaken(d, id, n) && Apart(m.id, id)
    ensures CopiesTaken(Add(d, m), id, if m.id == id then n + 1 else n)
    ensures m.id == id ==> KeyFor(d, id) == if n == 0 then id else Suffixed(id, n)
  {
    var k := KeyFor(d, m.id);
    InsertHas(d, k, Filed(m), id);
    if m.id == id && n > 0 {
      var f := FirstFree(d, id, 1);
      assert Taken(d, id, f) <==> f < n;
      assert f >= n && !Taken(d, id, n);
      NewCopy(id, n);
    }
    forall j: nat | j >= 1 ensures Taken(Add(d, m), id, j) <==> Taken(d, id, j) || k == Suffixed(id, j) {
      InsertHas(d, k, Filed(m), Suffixed(id, j));
    }
    CountKeys(d, id, n, m);
  }

  lemma CountKeys(d: Dictionary, id: string, n: nat, m: Message)
    requires CopiesTaken(d, id, n) && Apart(m.id, id)
    ensures var k := KeyFor(d, m.id);
            if m.id == id then k == if n == 0 then id else Suffixed(id, n)
            else k != id && forall j: nat :: k != Suffixed(id, j)
    ensures forall j: nat :: j >= 1 && n >= 1 && Suffixed(id, n) == Suffixed(id, j) ==> j == n
    ensures forall j: nat :: j >= 1 ==> id != Suffixed(id, j)
  {
    var k := KeyFor(d, m.id);
    if m.id == id {
      if n > 0 {
        var f := FirstFree(d, id, 1);
        assert Taken(d, id, f) <==> f < n;
        assert !Taken(d, id, n);
      }
    } else if Has(d, m.id) {
      var f := FirstFree(d, m.id, 1);
      forall j: nat ensures k != Suffixed(id, j) {
        if Suffixed(m.id, f) == Suffixed(id, j) { SuffixedInjective(m.id, f, id, j); }
      }
    }
    forall j: nat | j >= 1 ensures id != Suffixed(id, j) { NewCopy(id, j); }
    forall j: nat | j >= 1 && n >= 1 && Suffixed(id, n) == Suffixed(id, j) ensures j == n {
      SuffixedInjective(id, n, id, j);
    }
  }

  lemma AddOneMore(ms: seq<Message>, i: nat)
    requires i < |ms|
    ensures AddAll([], ms[..i + 1]) == Add(AddAll([], ms[..i]), ms[i])
    ensures forall id :: Count(ms[..i + 1], id) == Count(ms[..i], id) + if ms[i].id == id then 1 else 0
  {
    var all := ms[..i + 1];
    assert all[..i] == ms[..i] && all[i..] == [ms[i]] && all[..|all| - 1] == ms[..i];
    AddAllSplit([], all, i);
    assert [ms[i]][1..] == [];
  }

  /** The copies of an id are numbered in the order of their arrival, without gaps: after any run,
      its n occurrences have taken the id itself and the numbers 1 to n-1. */
  lemma {:induction false} CopiesInOrder(ms: seq<Message>, id: string, i: nat)
    requires i <= |ms| && forall k :: 0 <= k < |ms| ==> Apart(ms[k].id, id)
    ensures CopiesTaken(AddAll([], ms[..i]), id, Count(ms[..i], id))
    decreases i
  {
    if i == 0 {
      assert ms[..0] == [];
    } else {
      CopiesInOrder(ms, id, i - 1);
      AddOneMore(ms, i - 1);
      CountStep(AddAll([], ms[..i - 1]), id, Count(ms[..i - 1], id), ms[i - 1]);
    }
  }

  /** The key of each message, in terms of the run alone. */
  lemma NthCopy(ms: seq<Message>, i: nat)
    requires i < |ms| && forall k :: 0 <= k < |ms| ==> Apart(ms[k].id, ms[i].id)
    ensures var n := Count(ms[..i], ms[i].id);
            KeyFor(AddAll([], ms[..i]), ms[i].id) == if n == 0 then ms[i].id else Suffixed(ms[i].id, n)
  {
    CopiesInOrder(ms, ms[i].id, i);
    CountStep(AddAll([], ms[..i]), ms[i].id, Count(ms[..i], ms[i].id), ms[i]);
  }

  /** Why the ids must be apart: after a message that is itself called like the first copy of an id, the
      id's second occurrence gets the number 2. */
  lemma ImitationShifts(a: Message, b: Message, c: Message)
    requires a.id == Suffixed(b.id, 1) && c.id == b.id
    ensures KeyFor(Add(Add([], a), b), c.id) == Suffixed(c.id, 2)
  {
    var id := b.id;
    NewCopy(id, 1);
    InsertHas([], a.id, Filed(a), id);
    var d := Add([], a);
    assert !Has(d, id);
    var d2 := Add(d, b);
    forall k ensures Has(d2, k) <==> k == a.id || k == id {
      InsertHas([], a.id, Filed(a), k);
      InsertHas(d, id, Filed(b), k);
    }
    NewCopy(id, 2);
    assert Taken(d2, id, 1) && !Taken(d2, id, 2);
    assert FirstFree(d2, id, 1) == 2;
  }

  // ----------------------------------------------------------------- the manual

  /** What the printing loop writes between the page header and the page trailer. */
  datatype Part = SectionHeader(name: string) | Entry(key: string) | Separator | SectionTrailer

  /** The rest of the page, from an open section `sname` (none when empty) on. */
  function Layout(d: Dictionary, sname: string, first: bool): seq<Part>
    decreases |d|
  {
    if d == [] then if sname != "" then [SectionTrailer] else []
    else
      var s := d[0].1.sname;
      var rest := [Entry(d[0].0)] + Layout(d[1..], s, false);
      if s == sname then if first then rest else [Separator] + rest
      else if sname == "" then [SectionHeader(s)] + rest
      else [SectionTrailer] + ([Separator] + ([SectionHeader(s)] + rest))
  }

  /** What comes before the next message. */
  function Opening(s: string, sname: string, first: bool): seq<Part> {
    if s == sname then if first then [] else [Separator]
    else if sname == "" then [SectionHeader(s)]
    else [SectionTrailer, Separator, SectionHeader(s)]
  }

  lemma {:induction false} LayoutOpens(d: Dictionary, sname: string, first: bool)
    requires d != []
    ensures var s := d[0].1.sname;
            Layout(d, sname, first) == (Opening(s, sname, first) + [Entry(d[0].0)]) + Layout(d[1..], s, false)
  {
    var s, tail := d[0].1.sname, Layout(d[1..], d[0].1.sname, false);
    var rest := [Entry(d[0].0)] + tail;
    assert [SectionTrailer] + ([Separator] + ([SectionHeader(s)] + rest)) == [SectionTrailer, Separator, SectionHeader(s)] + rest;
    assert (Opening(s, sname, first) + [Entry(d[0].0)]) + tail == Opening(s, sname, first) + rest;
  }

  /** Where a reader of the page stands. */
  datatype Place = Start | Opened(s: string) | Listed(s: string) | Pending(s: string) | Closed | Between | Bad

  predicate Belongs(d: Dictionary, key: string, sname: string) {
    exists i :: 0 <= i < |d| && d[i].0 == key && d[i].1.sname == sname
  }

  /** The grammar of the page, as the tool's documentation draws it: sections one after another with a
      separator between them, each with a header, at least one message of that very section,
      separators between its messages, and a trailer. */
  function Next(d: Dictionary, at: Place, p: Part): Place {
    if (at.Start? || at.Between?) && p.SectionHeader? then Opened(p.name)
    else if (at.Opened? || at.Pending?) && p.Entry? && Belongs(d, p.key, at.s) then Listed(at.s)
    else if at.Listed? && p.Separator? then Pending(at.s)
    else if at.Listed? && p.SectionTrailer? then Closed
    else if at.Closed? && p.Separator? then Between
    else Bad
  }

  function Read(d: Dictionary, at: Place, page: seq<Part>): Place
    decreases |page|
  {
    if page == [] then at else Read(d, Next(d, at, page[0]), page[1..])
  }

  predicate WellFormed(d: Dictionary, page: seq<Part>) {
    var at := Read(d, Start, page);
    at.Start? || at.Closed?
  }

  lemma ReadOne(d: Dictionary, at: Place, p: Part, rest: seq<Part>)
    ensures Read(d, at, [p] + rest) == Read(d, Next(d, at, p), rest)
  {
    assert ([p] + rest)[1..] == rest;
  }

  lemma {:induction false} BadStays(d: Dictionary, page: seq<Part>)
    ensures Read(d, Bad, page) == Bad
    decreases |page|
  {
    if page != [] { BadStays(d, page[1..]); }
  }

  /** Reading on past the next message: into its section when one was open before. */
  lemma ReadMessage(all: Dictionary, d: Dictionary, sname: string)
    requires d != [] && Belongs(all, d[0].0, d[0].1.sname)
    requires sname != "" || d[0].1.sname == sname
    ensures Read(all, Listed(sname), Layout(d, sname, false))
         == Read(all, Listed(d[0].1.sname), Layout(d[1..], d[0].1.sname, false))
  {
    var s := d[0].1.sname;
    var tail := Layout(d[1..], s, false);
    var rest := [Entry(d[0].0)] + tail;
    if s == sname {
      ReadOne(all, Listed(s), Separator, rest);
      ReadOne(all, Pending(s), Entry(d[0].0), tail);
    } else {
      ReadOne(all, Listed(sname), SectionTrailer, [Separator] + ([SectionHeader(s)] + rest));
      ReadOne(all, Closed, Separator, [SectionHeader(s)] + rest);
      ReadOne(all, Between, SectionHeader(s), rest);
      ReadOne(all, Opened(s), Entry(d[0].0), tail);
    }
  }

  lemma {:induction false} LayoutReads(all: Dictionary, d: Dictionary, sname: string)
    requires forall i :: 0 <= i < |d| ==> Belongs(all, d[i].0, d[i].1.sname)
    ensures var at := Read(all, Listed(sname), Layout(d, sname, false));
            at.Start? || at.Closed? <==> sname != "" && forall i :: 0 <= i < |d| ==> d[i].1.sname != ""
    decreases |d|
  {
    if d == [] {
    } else if sname == "" && d[0].1.sname != sname {
      var s := d[0].1.sname;
      ReadOne(all, Listed(""), SectionHeader(s), [Entry(d[0].0)] + Layout(d[1..], s, false));
      BadStays(all, [Entry(d[0].0)] + Layout(d[1..], s, false));
    } else {
      ReadMessage(all, d, sname);
      LayoutReads(all, d[1..], d[0].1.sname);
    }
  }

  lemma ReadFirst(all: Dictionary, d: Dictionary)
    requires d != [] && Belongs(all, d[0].0, d[0].1.sname)
    ensures Read(all, Start, Layout(d, "", true))
         == if d[0].1.sname == "" then Bad else Read(all, Listed(d[0].1.sname), Layout(d[1..], d[0].1.sname, false))
  {
    var s := d[0].1.sname;
    var tail := Layout(d[1..], s, false);
    if s == "" {
      ReadOne(all, Start, Entry(d[0].0), tail);
      BadStays(all, tail);
    } else {
      ReadOne(all, Start, SectionHeader(s), [Entry(d[0].0)] + tail);
      ReadOne(all, Opened(s), Entry(d[0].0), tail);
    }
  }

  /** The page is well formed, with balanced headers and trailers and every message inside its own
      section, exactly when no message has an empty section name. */
  lemma {:induction false} PageWellFormed(d: Dictionary)
    ensures WellFormed(d, Layout(d, "", true)) <==> forall i :: 0 <= i < |d| ==> d[i].1.sname != ""
  {
    if d == [] {
      assert Layout(d, "", true) == [];
    } else {
      forall i | 0 <= i < |d| ensures Belongs(d, d[i].0, d[i].1.sname) {}
      ReadFirst(d, d);
      LayoutReads(d, d[1..], d[0].1.sname);
      assert forall i :: 1 <= i < |d| ==> d[i] == d[1..][i - 1];
    }
  }

  // ----------------------------------------------------------------- each section once

  function Headers(page: seq<Part>): seq<string> {
    if page == [] then []
    else (if page[0].SectionHeader? then [page[0].name] else []) + Headers(page[1..])
  }

  function Keys(page: seq<Part>): seq<string> {
    if page == [] then []
    else (if page[0].Entry? then [page[0].key] else []) + Keys(page[1..])
  }

  function Names(d: Dictionary): seq<string> {
    if d == [] then [] else [d[0].1.sname] + Names(d[1..])
  }

  lemma {:induction false} NamesAt(d: Dictionary)
    ensures |Names(d)| == |d| && forall i :: 0 <= i < |d| ==> Names(d)[i] == d[i].1.sname
  {
    if d != [] { NamesAt(d[1..]); }
  }

  /** The names at which a sequence of names changes. */
  function Changes(names: seq<string>, prev: string): seq<string> {
    if names == [] then []
    else if names[0] == prev then Changes(names[1..], prev)
    else [names[0]] + Changes(names[1..], names[0])
  }

  lemma HeadersOne(p: Part, rest: seq<Part>)
    ensures Headers([p] + rest) == (if p.SectionHeader? then [p.name] else []) + Headers(rest)
    ensures Keys([p] + rest) == (if p.Entry? then [p.key] else []) + Keys(rest)
  {
    assert ([p] + rest)[1..] == rest;
  }

  lemma LayoutStep(d: Dictionary, sname: string, first: bool)
    requires d != []
    ensures var s := d[0].1.sname;
            var tail := Layout(d[1..], s, false);
            && Headers(Layout(d, sname, first)) == (if s == sname then [] else [s]) + Headers(tail)
            && Keys(Layout(d, sname, first)) == [d[0].0] + Keys(tail)
  {
    var s := d[0].1.sname;
    var tail := Layout(d[1..], s, false);
    var rest := [Entry(d[0].0)] + tail;
    HeadersOne(Entry(d[0].0), tail);
    if s == sname {
      HeadersOne(Separator, rest);
    } else {
      HeadersOne(SectionHeader(s), rest);
      HeadersOne(Separator, [SectionHeader(s)] + rest);
      HeadersOne(SectionTrailer, [Separator] + ([SectionHeader(s)] + rest));
    }
  }

  function KeysIn(d: Dictionary): seq<string> {
    if d == [] then [] else [d[0].0] + KeysIn(d[1..])
  }

  /** The page opens a section at every change of name, and lists every key in order. */
  lemma {:induction false} LayoutHeaders(d: Dictionary, sname: string, first: bool)
    ensures Headers(Layout(d, sname, first)) == Changes(Names(d), sname)
    ensures Keys(Layout(d, sname, first)) == KeysIn(d)
    decreases |d|
  {
    if d == [] {
      HeadersOne(SectionTrailer, []);
      assert [SectionTrailer] + [] == [SectionTrailer];
    } else {
      LayoutStep(d, sname, first);
      LayoutHeaders(d[1..], d[0].1.sname, false);
      assert Names(d)[1..] == Names(d[1..]);
    }
  }

  predicate Distinct(s: seq<string>) {
    forall i, j :: 0 <= i < j < |s| ==> s[i] != s[j]
  }

  /** Whatever lies between two equal names equals them. */
  predicate Contiguous(names: seq<string>) {
    forall i, j, k :: 0 <= i < j < k < |names| && names[i] == names[k] ==> names[j] == names[i]
  }

  lemma {:induction false} ChangesHold(names: seq<string>, prev: string, t: string)
    requires t != prev
    ensures t in Changes(names, prev) <==> t in names
    decreases |names|
  {
    if names != [] {
      assert names == [names[0]] + names[1..];
      if names[0] != t { ChangesHold(names[1..], names[0], t); }
    }
  }

  lemma ContiguousCons(n: string, p: string, rest: seq<string>)
    ensures Contiguous([p, n] + rest) <==> Contiguous([n] + rest) && (p == n || p !in rest)
  {
    var long, short := [p, n] + rest, [n] + rest;
    assert forall i :: 0 <= i < |short| ==> long[i + 1] == short[i];
    if Contiguous(long) {
      forall i, j, k | 0 <= i < j < k < |short| && short[i] == short[k] ensures short[j] == short[i] {
        assert long[i + 1] == long[k + 1];
        assert long[j + 1] == long[i + 1];
      }
      forall k | 0 <= k < |rest| && p != n ensures rest[k] != p {
        assert long[k + 2] == rest[k] && long[0] == p && long[1] == n;
      }
    }
    if Contiguous(short) && (p == n || p !in rest) {
      forall i, j, k | 0 <= i < j < k < |long| && long[i] == long[k] ensures long[j] == long[i] {
        assert long[k] == short[k - 1] && long[j] == short[j - 1];
        if i > 0 { assert long[i] == short[i - 1]; }
        else if k >= 2 { assert long[k] == rest[k - 2]; assert short[0] == n; }
      }
    }
  }

  lemma DistinctCons(x: string, s: seq<string>)
    ensures Distinct([x] + s) <==> x !in s && Distinct(s)
  {
    var t := [x] + s;
    assert forall i :: 0 <= i < |s| ==> t[i + 1] == s[i];
    if Distinct(t) {
      forall j | 0 <= j < |s| ensures x != s[j] { assert t[0] != t[j + 1]; }
    }
  }

  lemma {:induction false} ChangesDistinct(names: seq<string>, prev: string)
    ensures Distinct(Changes(names, prev)) && prev !in Changes(names, prev) <==> Contiguous([prev] + names)
    decreases |names|
  {
    if names != [] {
      var n, rest := names[0], names[1..];
      assert [prev] + names == [prev, n] + rest;
      ContiguousCons(n, prev, rest);
      ChangesDistinct(rest, n);
      if n != prev {
        DistinctCons(n, Changes(rest, n));
        ChangesHold(rest, n, prev);
      }
    }
  }

  /** Changes from no section at all. */
  lemma ChangesFromNone(names: seq<string>)
    requires "" !in names
    ensures Distinct(Changes(names, "")) <==> Contiguous(names)
  {
    if names != [] {
      var n, rest := names[0], names[1..];
      assert names == [n] + rest && n in names;
      ChangesDistinct(rest, n);
      DistinctCons(n, Changes(rest, n));
    }
  }

  /** Each section is opened once, exactly when the messages of a section stand together in key order. */
  lemma {:induction false} EachSectionOnce(d: Dictionary)
    requires forall i :: 0 <= i < |d| ==> d[i].1.sname != ""
    ensures Distinct(Headers(Layout(d, "", true))) <==> Contiguous(Names(d))
  {
    LayoutHeaders(d, "", true);
    NamesAt(d);
    ChangesFromNone(Names(d));
  }

  /** An entry whose key starts with its section and an underscore: any id with an underscore. */
  predicate Underscored(e: (string, Details)) {
    e.1.sname + "_" <= e.0 && '_' !in e.1.sname
  }

  /** Keys that start with the same section stand together, because whatever sorts between them starts
      with it too. */
  lemma {:induction false} UnderscoresContiguous(d: Dictionary)
    requires Ascending(d) && forall i :: 0 <= i < |d| ==> Underscored(d[i])
    ensures Contiguous(Names(d))
  {
    NamesAt(d);
    forall i, j, k | 0 <= i < j < k < |d| && d[i].1.sname == d[k].1.sname ensures d[j].1.sname == d[i].1.sname {
      BetweenSharesPrefix(d[i].1.sname + "_", d[i].0, d[j].0, d[k].0);
      SamePrefix(d[i].1.sname, d[j].1.sname, d[j].0);
    }
  }

  lemma UnderscoreAt(a: string, key: string)
    requires a + "_" <= key && '_' !in a
    ensures FirstUnderscore(key) == |a| && a == key[..|a|]
  {
    assert key[|a|] == (a + "_")[|a|];
    assert forall i :: 0 <= i < |a| ==> key[i] == (a + "_")[i] && a[i] in a;
  }

  lemma SamePrefix(a: string, b: string, key: string)
    requires a + "_" <= key && b + "_" <= key && '_' !in a && '_' !in b
    ensures a == b
  {
    UnderscoreAt(a, key);
    UnderscoreAt(b, key);
  }

  /** A message whose id has an underscore is filed under a key that starts with its section. */
  lemma FiledUnderscored(d: Dictionary, m: Message)
    requires '_' in m.id
    ensures Underscored((KeyFor(d, m.id), Filed(m)))
  {
    var n := FirstUnderscore(m.id);
    var k :| 0 <= k < |m.id| && m.id[k] == '_';
    assert m.id[..n] + "_" == m.id[..n + 1];
    assert m.id <= KeyFor(d, m.id);
  }

  ghost predicate WellNamed(d: Dictionary) {
    Ascending(d) && forall i :: 0 <= i < |d| ==> Underscored(d[i]) && d[i].1.sname != ""
  }

  lemma {:induction false} AddAllWellNamed(d: Dictionary, ms: seq<Message>)
    requires WellNamed(d) && forall i :: 0 <= i < |ms| ==> '_' in ms[i].id && ms[i].id[0] != '_'
    ensures WellNamed(AddAll(d, ms))
    decreases |ms|
  {
    if ms != [] {
      var k, v := KeyFor(d, ms[0].id), Filed(ms[0]);
      FiledUnderscored(d, ms[0]);
      InsertAscending(d, k, v);
      InsertGrows(d, k, v);
      var d' := Add(d, ms[0]);
      forall i | 0 <= i < |d'| ensures Underscored(d'[i]) && d'[i].1.sname != "" {
        assert d'[i] in d';
      }
      AddAllWellNamed(d', ms[1..]);
    }
  }

  /** The manual of any messages whose ids have a non-empty part before an underscore: every section
      is opened exactly once, headers and trailers balance, and every message is in its section. */
  lemma {:induction false} ManualIsWellFormed(ms: seq<Message>)
    requires forall i :: 0 <= i < |ms| ==> '_' in ms[i].id && ms[i].id[0] != '_'
    ensures var d := AddAll([], ms);
            var page := Layout(d, "", true);
            WellFormed(d, page) && Distinct(Headers(page)) && Keys(page) == KeysIn(d)
  {
    AddAllWellNamed([], ms);
    var d := AddAll([], ms);
    PageWellFormed(d);
    UnderscoresContiguous(d);
    EachSectionOnce(d);
    LayoutHeaders(d, "", true);
  }

  lemma NewKey(d: Dictionary, m: Message)
    requires !Has(d, m.id)
    ensures Add(d, m) == Insert(d, m.id, Filed(m))
  {
  }

  lemma InsertMiddle(a: (string, Details), c: (string, Details), k: string, v: Details)
    requires a.0 != k && c.0 != k && !Less(k, a.0) && Less(k, c.0)
    ensures Insert([a, c], k, v) == [a, (k, v), c]
  {
    assert [a, c][1..] == [c];
    assert Insert([c], k, v) == [(k, v)] + [c];
  }

  lemma InsertSecond(a: (string, Details), k: string, v: Details)
    requires a.0 != k && !Less(k, a.0)
    ensures Insert([a], k, v) == [a, (k, v)]
  {
    assert [a][1..] == [];
  }

  lemma LessAbc()
    ensures !Less("A_X", "A") && !Less("AB_Q", "A") && Less("AB_Q", "A_X")
  {
    assert "A_X"[1..] == "_X" && "A"[1..] == "" && "AB_Q"[1..] == "B_Q";
    assert !Less("_X", "") && !Less("B_Q", "") && Less("B_Q", "_X");
  }

  /** The dictionary of the messages A, A_X and AB_Q, in any texts: AB_Q sorts between the other two. */
  lemma ThreeMessages(a: Message, x: Message, q: Message)
    requires a.id == "A" && x.id == "A_X" && q.id == "AB_Q"
    ensures AddAll([], [a, x, q]) == [("A", Filed(a)), ("AB_Q", Filed(q)), ("A_X", Filed(x))]
  {
    LessAbc();
    var all := [a, x, q];
    assert all[1..] == [x, q] && all[1..][1..] == [q] && all[1..][1..][1..] == [];
    var d1 := [("A", Filed(a))];
    NewKey([], a);
    assert Add([], a) == d1;
    assert |"A_X"| != |"A"| && !Has(d1, "A_X");
    NewKey(d1, x);
    InsertSecond(d1[0], "A_X", Filed(x));
    var d2 := [d1[0], ("A_X", Filed(x))];
    assert |"AB_Q"| == 4 && !Has(d2, "AB_Q");
    NewKey(d2, q);
    InsertMiddle(d2[0], d2[1], "AB_Q", Filed(q));
    assert AddAll(d2, [q]) == AddAll(Add(d2, q), [q][1..]) == Add(d2, q);
    assert AddAll(d1, [x, q]) == AddAll(Add(d1, x), [x, q][1..]) == AddAll(d2, [q]);
    assert AddAll([], all) == AddAll(Add([], a), all[1..]) == AddAll(d1, [x, q]);
  }

  /** An id without an underscore can get a section opened twice: the manual of the messages A, A_X and
      AB_Q, whatever else they say. */
  lemma SectionOpenedTwice(a: Message, x: Message, q: Message)
    requires a.id == "A" && x.id == "A_X" && q.id == "AB_Q"
    ensures !Distinct(Headers(Layout(AddAll([], [a, x, q]), "", true)))
  {
    ThreeMessages(a, x, q);
    var d := [("A", Filed(a)), ("AB_Q", Filed(q)), ("A_X", Filed(x))];
    assert "A_X"[1] == '_' && "AB_Q"[2] == '_' && "A_X"[..1] == "A" && "AB_Q"[..2] == "AB" && "A"[..1] == "A";
    assert Section("A") == "A" && Section("A_X") == "A" && Section("AB_Q") == "AB";
    NamesAt(d);
    assert Names(d)[0] == Names(d)[2] && Names(d)[1] != Names(d)[0];
    EachSectionOnce(d);
  }

  // ----------------------------------------------------------------- the program

  /** The two loops that erase blank lines, from the front and from the back. */
  method RemoveEmptyLeadingTrailing(lines: seq<string>) returns (kept: seq<string>)
    ensures kept == Trimmed(lines)
  {
    kept := lines;
    while kept != [] && kept[0] == ""
      invariant DropLeading(kept) == DropLeading(lines)
      decreases |kept|
    {
      kept := kept[1..];
    }
    while kept != [] && kept[|kept| - 1] == ""
      invariant DropTrailing(kept) == Trimmed(lines)
      decreases |kept|
    {
      kept := kept[..|kept| - 1];
    }
  }

  /** The program's global dictionary. */
  class Manual {
    var dictionary: Dictionary

    constructor ()
      ensures dictionary == []
    {
      dictionary := [];
    }

    /** The suffix loop, which ends before its counter passes the size of the dictionary. */
    method FreeKey(id: string) returns (key: string)
      ensures key == KeyFor(dictionary, id)
    {
      key := id;
      if Has(dictionary, key) {
        var i := 1;
        key := Suffixed(id, i);
        while Has(dictionary, key)
          invariant 1 <= i <= |dictionary| && key == Suffixed(id, i)
          invariant forall j :: 1 <= j < i ==> Taken(dictionary, id, j)
          invariant FirstFree(dictionary, id, 1) >= i
          decreases |dictionary| - i
        {
          assert Taken(dictionary, id, i);
          TakenBound(dictionary, id, i);
          i := i + 1;
          key := Suffixed(id, i);
        }
        assert !Taken(dictionary, id, i);
      }
    }

    method AddToDictionary(m: Message)
      modifies this
      ensures dictionary == Add(old(dictionary), m)
    {
      var key := FreeKey(m.id);
      var description := RemoveEmptyLeadingTrailing(m.description);
      var details := Details(m.text, description, m.id[..FirstUnderscore(m.id)], m.filename);
      dictionary := Insert(dictionary, key, details);
    }

    method AddMessages(ms: seq<Message>)
      modifies this
      ensures dictionary == AddAll(old(dictionary), ms)
    {
      var i := 0;
      while i < |ms|
        invariant 0 <= i <= |ms|
        invariant AddAll(old(dictionary), ms) == AddAll(dictionary, ms[i..])
      {
        assert ms[i..][0] == ms[i] && ms[i..][1..] == ms[i + 1..];
        AddToDictionary(ms[i]);
        i := i + 1;
      }
    }

    /** One turn of the printing loop. */
    method PrintEntry(i: nat, sname: string, first: bool) returns (parts: seq<Part>)
      requires i < |dictionary|
      ensures parts + Layout(dictionary[i + 1..], dictionary[i].1.sname, false) == Layout(dictionary[i..], sname, first)
    {
      var (key, details) := dictionary[i];
      var begun := first;
      assert dictionary[i..][0] == dictionary[i] && dictionary[i..][1..] == dictionary[i + 1..];
      parts := [];
      if sname != details.sname {
        if sname != "" {
          parts := [SectionTrailer, Separator];
        }
        parts := parts + [SectionHeader(details.sname)];
        begun := true;
      }
      if !begun {
        parts := parts + [Separator];
      }
      assert parts == Opening(details.sname, sname, first);
      LayoutOpens(dictionary[i..], sname, first);
      parts := parts + [Entry(key)];
    }

    /** The printing loop. */
    method PrintSections() returns (page: seq<Part>)
      ensures page == Layout(dictionary, "", true)
    {
      page := [];
      var first, sname := true, "";
      var i := 0;
      assert dictionary[0..] == dictionary;
      while i < |dictionary|
        invariant 0 <= i <= |dictionary|
        invariant page + Layout(dictionary[i..], sname, first) == Layout(dictionary, "", true)
      {
        var parts := PrintEntry(i, sname, first);
        assert page + (parts + Layout(dictionary[i + 1..], dictionary[i].1.sname, false))
            == (page + parts) + Layout(dictionary[i + 1..], dictionary[i].1.sname, false);
        page := page + parts;
        sname := dictionary[i].1.sname;
        first := false;
        i := i + 1;
      }
      if sname != "" {
        page := page + [SectionTrailer];
      }
    }
  }
}
