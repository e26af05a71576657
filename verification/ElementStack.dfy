/** The semantic actions of the Control-agent parser on generic JSON, agent_parser.cc: elements are
    objects in a store, shared by reference; a stack holds the maps and lists being filled; each
    grammar rule runs its action on the top of the stack.

    A derivation of the grammar is a datatype value, left-recursive as the rules are. What a derivation
    denotes is a `Tree`; what the actions build is a node of the store. The theorem is that the two
    agree.
 */
module ElementStack {
  import opened Text

  /** The syntactic contexts of the lexer. */
  datatype LexerContext =
    | NoKeywords | Config | Agent | Logging | ControlSockets | Server
    | SocketType | HooksLibraries | Loggers | OutputOptions

  /** A string of the input; the ones the lexer may turn into keywords have names of their own. */
  datatype Word =
    | ControlAgentWord | LoggingWord | Dhcp4Object | Dhcp6Object | DhcpDdnsObject
    | HttpHost | HttpPort | ControlSocketsWord | HooksLibrariesWord
    | UserContextWord | CommentWord
    | Dhcp4Server | Dhcp6Server | D2Server
    | SocketName | SocketTypeWord | Unix
    | Library | ParametersWord
    | LoggersWord | NameWord | OutputOptionsWord | DebugLevel | Severity
    | Output | Flush | MaxSize | MaxVer
    | Other(text: string)

  /** The context in which a word is a keyword; user contexts and comments have three. */
  predicate Recognised(c: LexerContext, w: Word) {
    if w.UserContextWord? || w.CommentWord? then c.Agent? || c.Server? || c.Loggers?
    else c == HomeContext(w) && !c.NoKeywords?
  }

  function HomeContext(w: Word): LexerContext {
    match w
    case ControlAgentWord => Config
    case LoggingWord => Config
    case Dhcp4Object => Config
    case Dhcp6Object => Config
    case DhcpDdnsObject => Config
    case HttpHost => Agent
    case HttpPort => Agent
    case ControlSocketsWord => Agent
    case HooksLibrariesWord => Agent
    case UserContextWord => Agent
    case CommentWord => Agent
    case Dhcp4Server => ControlSockets
    case Dhcp6Server => ControlSockets
    case D2Server => ControlSockets
    case SocketName => Server
    case SocketTypeWord => Server
    case Unix => SocketType
    case Library => HooksLibraries
    case ParametersWord => HooksLibraries
    case LoggersWord => Logging
    case NameWord => Loggers
    case OutputOptionsWord => Loggers
    case DebugLevel => Loggers
    case Severity => Loggers
    case Output => OutputOptions
    case Flush => OutputOptions
    case MaxSize => OutputOptions
    case MaxVer => OutputOptions
    case Other(_) => NoKeywords
  }

  // ----------------------------------------------------------------- derivations and what they denote

  datatype Value =
    | Integer(i: int) | Float(r: real) | Boolean(b: bool) | String(w: Word) | NullType
    | Object(entries: Entries) | Array(items: Items)

  datatype Entries = NoEntries | Entry(init: Entries, key: Word, v: Value)

  datatype Items = NoItems | Item(init: Items, v: Value)

  datatype Tree =
    | IntTree(i: int) | RealTree(r: real) | BoolTree(b: bool) | StrTree(w: Word) | NullTree
    | ListTree(trees: seq<Tree>) | MapTree(branches: map<Word, Tree>)

  function Denote(v: Value): Tree
    decreases v
  {
    match v
    case Integer(i) => IntTree(i)
    case Float(r) => RealTree(r)
    case Boolean(b) => BoolTree(b)
    case String(w) => StrTree(w)
    case NullType => NullTree
    case Object(entries) => MapTree(Extended(map[], entries))
    case Array(items) => ListTree(Appended([], items))
  }

  /** A map with entries added; the last of several entries under one key wins. */
  function Extended(m: map<Word, Tree>, es: Entries): map<Word, Tree>
    decreases es
  {
    match es
    case NoEntries => m
    case Entry(init, key, v) => Extended(m, init)[key := Denote(v)]
  }

  function Appended(ts: seq<Tree>, items: Items): seq<Tree>
    decreases items
  {
    match items
    case NoItems => ts
    case Item(init, v) => Appended(ts, init) + [Denote(v)]
  }

  /** The entries and items of a derivation, in the order of the text. */
  function EntryList(es: Entries): seq<(Word, Value)> {
    match es
    case NoEntries => []
    case Entry(init, key, v) => EntryList(init) + [(key, v)]
  }

  function ItemList(items: Items): seq<Value> {
    match items
    case NoItems => []
    case Item(init, v) => ItemList(init) + [v]
  }

  /** An object has the keys of its entries, each with the value of its last entry. */
  lemma {:induction false} LastEntryWins(es: Entries, k: Word, i: nat)
    ensures k in Extended(map[], es) <==> exists j :: 0 <= j < |EntryList(es)| && EntryList(es)[j].0 == k
    ensures i < |EntryList(es)| && EntryList(es)[i].0 == k && (forall j :: i < j < |EntryList(es)| ==> EntryList(es)[j].0 != k)
            ==> k in Extended(map[], es) && Extended(map[], es)[k] == Denote(EntryList(es)[i].1)
    decreases es
  {
    if es.Entry? {
      LastEntryWins(es.init, k, i);
      var before, all := EntryList(es.init), EntryList(es);
      assert all[|before|] == (es.key, es.v) && forall j :: 0 <= j < |before| ==> all[j] == before[j];
      if es.key == k { assert all[|before|].0 == k; }
      else if k in Extended(map[], es.init) {
        var j :| 0 <= j < |before| && before[j].0 == k;
        assert all[j].0 == k;
      }
    }
  }

  /** An array has its items, in order. */
  lemma {:induction false} ItemsInOrder(items: Items)
    ensures |Appended([], items)| == |ItemList(items)|
    ensures forall i :: 0 <= i < |ItemList(items)| ==> Appended([], items)[i] == Denote(ItemList(items)[i])
  {
    if items.Item? { ItemsInOrder(items.init); }
  }

  // ----------------------------------------------------------------- the machine

  /** An element: lists and maps refer to other elements by their place in the store. */
  datatype Node =
    | IntNode(i: int) | RealNode(r: real) | BoolNode(b: bool) | StrNode(w: Word) | NullNode
    | ListNode(items: seq<nat>) | MapNode(fields: map<Word, nat>)

  datatype Parser = Parser(store: seq<Node>, stack: seq<nat>, ctx: LexerContext, cstack: seq<LexerContext>)

  /** A parser after building an element, which is the semantic value of the rule. */
  datatype Built = Built(p: Parser, id: nat)

  function Alloc(p: Parser, n: Node): Built {
    Built(p.(store := p.store + [n]), |p.store|)
  }

  function Push(p: Parser, id: nat): Parser {
    p.(stack := p.stack + [id])
  }

  function Top(p: Parser): nat
    requires p.stack != []
  {
    p.stack[|p.stack| - 1]
  }

  function Pop(p: Parser): Result<Built> {
    if p.stack == [] then Threw else Ok(Built(p.(stack := p.stack[..|p.stack| - 1]), Top(p)))
  }

  /** `set` on a map element. */
  function SetNode(p: Parser, node: nat, key: Word, id: nat): Result<Parser> {
    if node < |p.store| && p.store[node].MapNode?
    then Ok(p.(store := p.store[node := MapNode(p.store[node].fields[key := id])]))
    else Threw
  }

  function SetTop(p: Parser, key: Word, id: nat): Result<Parser> {
    if p.stack == [] then Threw else SetNode(p, Top(p), key, id)
  }

  /** `add` on the list element at the top of the stack. */
  function AddTop(p: Parser, id: nat): Result<Parser> {
    if p.stack != [] && Top(p) < |p.store| && p.store[Top(p)].ListNode?
    then Ok(p.(store := p.store[Top(p) := ListNode(p.store[Top(p)].items + [id])]))
    else Threw
  }

  function NewOnStack(p: Parser, n: Node): Parser {
    var b := Alloc(p, n);
    Push(b.p, b.id)
  }

  /** The actions of a value, in the order of its derivation. A string that the lexer takes for a
      keyword in the current context does not match the rule. */
  function RunValue(p: Parser, v: Value): Result<Built>
    decreases v
  {
    match v
    case Integer(i) => Ok(Alloc(p, IntNode(i)))
    case Float(r) => Ok(Alloc(p, RealNode(r)))
    case Boolean(b) => Ok(Alloc(p, BoolNode(b)))
    case String(w) => if Recognised(p.ctx, w) then Threw else Ok(Alloc(p, StrNode(w)))
    case NullType => Ok(Alloc(p, NullNode))
    case Object(entries) =>
      var q :- RunEntries(NewOnStack(p, MapNode(map[])), entries);
      Pop(q)
    case Array(items) =>
      var q :- RunItems(NewOnStack(p, ListNode([])), items);
      Pop(q)
  }

  function RunEntries(p: Parser, es: Entries): Result<Parser>
    decreases es
  {
    match es
    case NoEntries => Ok(p)
    case Entry(init, key, v) =>
      var q :- RunEntries(p, init);
      if Recognised(q.ctx, key) then Threw
      else
        var b :- RunValue(q, v);
        SetTop(b.p, key, b.id)
  }

  function RunItems(p: Parser, items: Items): Result<Parser>
    decreases items
  {
    match items
    case NoItems => Ok(p)
    case Item(init, v) =>
      var q :- RunItems(p, init);
      var b :- RunValue(q, v);
      AddTop(b.p, b.id)
  }

  // ----------------------------------------------------------------- nodes against trees

  /** Node `id` of the store stands for the tree, using only nodes in [lo, hi). */
  predicate Denotes(s: seq<Node>, lo: nat, hi: nat, id: nat, t: Tree)
    decreases t
  {
    && lo <= id < hi <= |s|
    && match t
       case IntTree(i) => s[id] == IntNode(i)
       case RealTree(r) => s[id] == RealNode(r)
       case BoolTree(b) => s[id] == BoolNode(b)
       case StrTree(w) => s[id] == StrNode(w)
       case NullTree => s[id] == NullNode
       case ListTree(ts) =>
         && s[id].ListNode? && |s[id].items| == |ts|
         && forall i :: 0 <= i < |ts| ==> Denotes(s, lo, hi, s[id].items[i], ts[i])
       case MapTree(m) =>
         && s[id].MapNode? && s[id].fields.Keys == m.Keys
         && forall k :: k in m ==> Denotes(s, lo, hi, s[id].fields[k], m[k])
  }

  /** Nodes [lo, hi) are the same in both stores. */
  predicate Agree(s: seq<Node>, t: seq<Node>, lo: nat, hi: nat) {
    hi <= |s| && hi <= |t| && forall i :: lo <= i < hi ==> s[i] == t[i]
  }

  /** What a node stands for depends only on its range, and the range may be widened. */
  lemma {:induction false} DenotesFrame(s: seq<Node>, s': seq<Node>, lo: nat, hi: nat, lo': nat, hi': nat, id: nat, t: Tree)
    requires Denotes(s, lo, hi, id, t) && Agree(s, s', lo, hi) && lo' <= lo && hi <= hi' <= |s'|
    ensures Denotes(s', lo', hi', id, t)
    decreases t
  {
    match t {
      case ListTree(ts) =>
        forall i | 0 <= i < |ts| ensures Denotes(s', lo', hi', s'[id].items[i], ts[i]) {
          DenotesFrame(s, s', lo, hi, lo', hi', s[id].items[i], ts[i]);
        }
      case MapTree(m) =>
        forall k | k in m ensures Denotes(s', lo', hi', s'[id].fields[k], m[k]) {
          DenotesFrame(s, s', lo, hi, lo', hi', s[id].fields[k], m[k]);
        }
      case _ =>
    }
  }

  /** The map node `top` holds the branches, built from nodes behind it. */
  predicate HoldsMap(s: seq<Node>, top: nat, m: map<Word, Tree>) {
    && top < |s| && s[top].MapNode? && s[top].fields.Keys == m.Keys
    && forall k :: k in m ==> Denotes(s, top + 1, |s|, s[top].fields[k], m[k])
  }

  predicate HoldsList(s: seq<Node>, top: nat, ts: seq<Tree>) {
    && top < |s| && s[top].ListNode? && |s[top].items| == |ts|
    && forall i :: 0 <= i < |ts| ==> Denotes(s, top + 1, |s|, s[top].items[i], ts[i])
  }

  /** Building only appends to the store. */
  lemma HoldsMapGrows(s: seq<Node>, s': seq<Node>, top: nat, m: map<Word, Tree>)
    requires HoldsMap(s, top, m) && Agree(s, s', top, |s|)
    ensures HoldsMap(s', top, m)
  {
    forall k | k in m ensures Denotes(s', top + 1, |s'|, s'[top].fields[k], m[k]) {
      DenotesFrame(s, s', top + 1, |s|, top + 1, |s'|, s[top].fields[k], m[k]);
    }
  }

  lemma HoldsListGrows(s: seq<Node>, s': seq<Node>, top: nat, ts: seq<Tree>)
    requires HoldsList(s, top, ts) && Agree(s, s', top, |s|)
    ensures HoldsList(s', top, ts)
  {
    forall i | 0 <= i < |ts| ensures Denotes(s', top + 1, |s'|, s'[top].items[i], ts[i]) {
      DenotesFrame(s, s', top + 1, |s|, top + 1, |s'|, s[top].items[i], ts[i]);
    }
  }

  /** Setting a key of a map to a node that stands for a tree. */
  lemma SetHolds(s: seq<Node>, top: nat, m: map<Word, Tree>, key: Word, id: nat, t: Tree)
    requires HoldsMap(s, top, m) && Denotes(s, top + 1, |s|, id, t)
    ensures HoldsMap(s[top := MapNode(s[top].fields[key := id])], top, m[key := t])
  {
    var s' := s[top := MapNode(s[top].fields[key := id])];
    forall k | k in m[key := t] ensures Denotes(s', top + 1, |s'|, s'[top].fields[k], m[key := t][k]) {
      DenotesFrame(s, s', top + 1, |s|, top + 1, |s'|, s'[top].fields[k], m[key := t][k]);
    }
  }

  lemma AddHolds(s: seq<Node>, top: nat, ts: seq<Tree>, id: nat, t: Tree)
    requires HoldsList(s, top, ts) && Denotes(s, top + 1, |s|, id, t)
    ensures HoldsList(s[top := ListNode(s[top].items + [id])], top, ts + [t])
  {
    var s' := s[top := ListNode(s[top].items + [id])];
    forall i | 0 <= i <= |ts| ensures Denotes(s', top + 1, |s'|, s'[top].items[i], (ts + [t])[i]) {
      DenotesFrame(s, s', top + 1, |s|, top + 1, |s'|, s'[top].items[i], (ts + [t])[i]);
    }
  }

  /** A complete map as the node it is. */
  lemma MapDenotes(s: seq<Node>, lo: nat, top: nat, m: map<Word, Tree>)
    requires HoldsMap(s, top, m) && lo <= top
    ensures Denotes(s, lo, |s|, top, MapTree(m))
  {
    forall k | k in m ensures Denotes(s, lo, |s|, s[top].fields[k], m[k]) {
      DenotesFrame(s, s, top + 1, |s|, lo, |s|, s[top].fields[k], m[k]);
    }
  }

  lemma ListDenotes(s: seq<Node>, lo: nat, top: nat, ts: seq<Tree>)
    requires HoldsList(s, top, ts) && lo <= top
    ensures Denotes(s, lo, |s|, top, ListTree(ts))
  {
    forall i | 0 <= i < |ts| ensures Denotes(s, lo, |s|, s[top].items[i], ts[i]) {
      DenotesFrame(s, s, top + 1, |s|, lo, |s|, s[top].items[i], ts[i]);
    }
  }

  /** Two parsers that differ at most in their stores. */
  predicate SameStacks(p: Parser, q: Parser) {
    q.stack == p.stack && q.ctx == p.ctx && q.cstack == p.cstack
  }

  // ----------------------------------------------------------------- the generic theorem

  /** Outside every keyword context, building a value succeeds, leaves all stacks and all existing
      elements alone, and yields an element that stands for exactly what the derivation denotes. */
  predicate Builds(p: Parser, v: Value) {
    var r := RunValue(p, v);
    && r.Ok? && SameStacks(p, r.value.p) && p.store <= r.value.p.store
    && Denotes(r.value.p.store, |p.store|, |r.value.p.store|, r.value.id, Denote(v))
  }

  /** Only the element at the top of the stack changes among the existing ones. */
  predicate OnlyTop(p: Parser, q: Parser, top: nat) {
    && SameStacks(p, q) && |p.store| <= |q.store|
    && forall i :: 0 <= i < |p.store| && i != top ==> q.store[i] == p.store[i]
  }

  lemma {:induction false} BuildValue(p: Parser, v: Value)
    requires p.ctx.NoKeywords?
    ensures Builds(p, v)
    decreases v
  {
    if v.Object? {
      BuildObject(p, v.entries);
    } else if v.Array? {
      BuildArray(p, v.items);
    }
  }

  lemma {:induction false} BuildObject(p: Parser, es: Entries)
    requires p.ctx.NoKeywords?
    ensures Builds(p, Object(es))
    ensures RunValue(p, Object(es)).value.id == |p.store|
    ensures HoldsMap(RunValue(p, Object(es)).value.p.store, |p.store|, Extended(map[], es))
    decreases es, 1
  {
    var q := NewOnStack(p, MapNode(map[]));
    BuildEntries(q, es, map[]);
    var r := RunEntries(q, es).value;
    MapDenotes(r.store, |p.store|, |p.store|, Extended(map[], es));
    assert r.stack[..|r.stack| - 1] == p.stack;
  }

  lemma {:induction false} BuildArray(p: Parser, items: Items)
    requires p.ctx.NoKeywords?
    ensures Builds(p, Array(items))
    decreases items, 1
  {
    var q := NewOnStack(p, ListNode([]));
    BuildItems(q, items, []);
    var r := RunItems(q, items).value;
    ListDenotes(r.store, |p.store|, |p.store|, Appended([], items));
    assert r.stack[..|r.stack| - 1] == p.stack;
  }

  lemma {:induction false} BuildEntries(p: Parser, es: Entries, m: map<Word, Tree>)
    requires p.ctx.NoKeywords? && p.stack != [] && HoldsMap(p.store, Top(p), m)
    ensures RunEntries(p, es).Ok? && OnlyTop(p, RunEntries(p, es).value, Top(p))
    ensures HoldsMap(RunEntries(p, es).value.store, Top(p), Extended(m, es))
    decreases es, 0
  {
    if es.Entry? {
      BuildEntries(p, es.init, m);
      var q := RunEntries(p, es.init).value;
      BuildValue(q, es.v);
      var b := RunValue(q, es.v).value;
      HoldsMapGrows(q.store, b.p.store, Top(p), Extended(m, es.init));
      DenotesFrame(b.p.store, b.p.store, |q.store|, |b.p.store|, Top(p) + 1, |b.p.store|, b.id, Denote(es.v));
      SetHolds(b.p.store, Top(p), Extended(m, es.init), es.key, b.id, Denote(es.v));
    }
  }

  lemma {:induction false} BuildItems(p: Parser, items: Items, ts: seq<Tree>)
    requires p.ctx.NoKeywords? && p.stack != [] && HoldsList(p.store, Top(p), ts)
    ensures RunItems(p, items).Ok? && OnlyTop(p, RunItems(p, items).value, Top(p))
    ensures HoldsList(RunItems(p, items).value.store, Top(p), Appended(ts, items))
    decreases items, 0
  {
    if items.Item? {
      BuildItems(p, items.init, ts);
      var q := RunItems(p, items.init).value;
      BuildValue(q, items.v);
      var b := RunValue(q, items.v).value;
      HoldsListGrows(q.store, b.p.store, Top(p), Appended(ts, items.init));
      DenotesFrame(b.p.store, b.p.store, |q.store|, |b.p.store|, Top(p) + 1, |b.p.store|, b.id, Denote(items.v));
      AddHolds(b.p.store, Top(p), Appended(ts, items.init), b.id, Denote(items.v));
    }
  }
}
