/** The Control-agent grammar over the element stack: maps and lists that are hung into their parent
    before they are filled, the lexical contexts entered and left around them, and the merging of
    comments into user contexts.
 */
module AgentGrammar {
  import opened Text
  import opened ElementStack

  // ----------------------------------------------------------------- derivations

  /** One entry of a map of the grammar. */
  datatype Param =
    | Leaf(key: Word, v: Value, plain: bool)
      /** A keyword and a value; `plain` when the value is read outside every keyword context. */
    | SocketTypeIsUnix
    | NestedMap(key: Word, body: Params)
    | NestedList(key: Word, maps: Maps)
    | UserContext(entries: Entries)
    | Comment(text: Word)
    | Unknown(word: Word)

  datatype Params = NoParams | AndParam(init: Params, x: Param)

  datatype Maps = NoMaps | AndMap(init: Maps, body: Params)

  // ----------------------------------------------------------------- the grammar

  /** The maps of the grammar, one for each rule that lists the entries of a map. */
  datatype MapKind = FileMap | AgentMap | SocketsMap | SocketMap | HookMap | LoggingMap | LoggerMap | OutputMap

  predicate StringEntry(x: Param, key: Word) {
    x.Leaf? && x.key == key && x.plain && x.v.String?
  }

  predicate IntegerEntry(x: Param, key: Word) {
    x.Leaf? && x.key == key && !x.plain && x.v.Integer?
  }

  predicate BooleanEntry(x: Param, key: Word) {
    x.Leaf? && x.key == key && !x.plain && x.v.Boolean?
  }

  predicate AnyEntry(x: Param, key: Word) {
    x.Leaf? && x.key == key && x.plain
  }

  predicate MapEntry(x: Param, key: Word) {
    x.NestedMap? && x.key == key
  }

  predicate ListEntry(x: Param, key: Word) {
    x.NestedList? && x.key == key
  }

  /** Which entries the rule of a map lists.  An unknown word fits everywhere; its own rule is an error. */
  predicate Listed(x: Param, k: MapKind) {
    x.Unknown? ||
    match k
    case FileMap =>
      || MapEntry(x, ControlAgentWord) || MapEntry(x, LoggingWord)
      || AnyEntry(x, Dhcp4Object) || AnyEntry(x, Dhcp6Object) || AnyEntry(x, DhcpDdnsObject)
    case AgentMap =>
      || StringEntry(x, HttpHost) || IntegerEntry(x, HttpPort)
      || MapEntry(x, ControlSocketsWord) || ListEntry(x, HooksLibrariesWord) || x.UserContext? || x.Comment?
    case SocketsMap =>
      MapEntry(x, Dhcp4Server) || MapEntry(x, Dhcp6Server) || MapEntry(x, D2Server)
    case SocketMap =>
      StringEntry(x, SocketName) || x.SocketTypeIsUnix? || x.UserContext? || x.Comment?
    case HookMap =>
      StringEntry(x, Library) || AnyEntry(x, ParametersWord)
    case LoggingMap =>
      ListEntry(x, LoggersWord)
    case LoggerMap =>
      || StringEntry(x, NameWord) || ListEntry(x, OutputOptionsWord)
      || IntegerEntry(x, DebugLevel) || StringEntry(x, Severity) || x.UserContext? || x.Comment?
    case OutputMap =>
      StringEntry(x, Output) || BooleanEntry(x, Flush) || IntegerEntry(x, MaxSize) || IntegerEntry(x, MaxVer)
  }

  /** What the rule of a nested map or list asks for inside. */
  function RuleOf(key: Word): MapKind {
    match key
    case ControlAgentWord => AgentMap
    case LoggingWord => LoggingMap
    case ControlSocketsWord => SocketsMap
    case HooksLibrariesWord => HookMap
    case LoggersWord => LoggerMap
    case OutputOptionsWord => OutputMap
    case _ => SocketMap
  }

  /** An entry derived by the rules, for a map of this kind. */
  predicate InMap(x: Param, k: MapKind)
    decreases x
  {
    && Listed(x, k)
    && (x.NestedMap? ==> InMaps(x.body, RuleOf(x.key)))
    && (x.NestedList? ==> InLists(x.maps, RuleOf(x.key)))
  }

  predicate InMaps(xs: Params, k: MapKind)
    decreases xs
  {
    xs.AndParam? ==> InMaps(xs.init, k) && InMap(xs.x, k)
  }

  predicate InLists(maps: Maps, k: MapKind)
    decreases maps
  {
    maps.AndMap? ==> InLists(maps.init, k) && InMaps(maps.body, k)
  }

  // ----------------------------------------------------------------- what derivations denote

  /** `merge` of data.cc: entries of `b` go into `a`, and null ones go out. */
  function Merge(a: map<Word, Tree>, b: map<Word, Tree>): map<Word, Tree> {
    map k | k in a.Keys + b.Keys && !(k in b && b[k].NullTree?) :: if k in b then b[k] else a[k]
  }

  /** A user context for a map that may have one; an earlier one must have been a lone comment, which
      the new one takes over. */
  function UserContextFor(m: map<Word, Tree>, u: map<Word, Tree>): Result<map<Word, Tree>> {
    if UserContextWord !in m then Ok(u)
    else
      var before := m[UserContextWord];
      if !before.MapTree? || |before.branches| != 1 || CommentWord !in before.branches then Threw
      else Ok(u[CommentWord := before.branches[CommentWord]])
  }

  /** The user context a comment makes; an earlier one must have no comment, and is merged in. */
  function CommentFor(m: map<Word, Tree>, text: Word): Result<map<Word, Tree>> {
    var u := map[CommentWord := StrTree(text)];
    if UserContextWord !in m then Ok(u)
    else
      var before := m[UserContextWord];
      if !before.MapTree? || CommentWord in before.branches then Threw
      else Ok(Merge(u, before.branches))
  }

  function WithUserContext(m: map<Word, Tree>, u: Result<map<Word, Tree>>): Result<map<Word, Tree>> {
    if u.Threw? then Threw else Ok(m[UserContextWord := MapTree(u.value)])
  }

  function DenoteParam(m: map<Word, Tree>, x: Param): Result<map<Word, Tree>>
    decreases x
  {
    match x
    case Leaf(key, v, _) => Ok(m[key := Denote(v)])
    case SocketTypeIsUnix => Ok(m[SocketTypeWord := StrTree(Unix)])
    case NestedMap(key, body) => DenoteNestedMap(m, key, body)
    case NestedList(key, maps) => DenoteNestedList(m, key, maps)
    case UserContext(entries) => WithUserContext(m, UserContextFor(m, Extended(map[], entries)))
    case Comment(text) => WithUserContext(m, CommentFor(m, text))
    case Unknown(_) => Threw
  }

  function DenoteNestedMap(m: map<Word, Tree>, key: Word, body: Params): Result<map<Word, Tree>>
    decreases body, 1
  {
    var inner :- DenoteParams(map[], body);
    Ok(m[key := MapTree(inner)])
  }

  function DenoteNestedList(m: map<Word, Tree>, key: Word, maps: Maps): Result<map<Word, Tree>>
    decreases maps, 1
  {
    var inner :- DenoteMaps([], maps);
    Ok(m[key := ListTree(inner)])
  }

  function DenoteParams(m: map<Word, Tree>, xs: Params): Result<map<Word, Tree>>
    decreases xs, 0
  {
    match xs
    case NoParams => Ok(m)
    case AndParam(init, x) =>
      var n :- DenoteParams(m, init);
      DenoteParam(n, x)
  }

  function DenoteMaps(ts: seq<Tree>, maps: Maps): Result<seq<Tree>>
    decreases maps, 0
  {
    match maps
    case NoMaps => Ok(ts)
    case AndMap(init, body) =>
      var us :- DenoteMaps(ts, init);
      var m :- DenoteParams(map[], body);
      Ok(us + [MapTree(m)])
  }

  // ----------------------------------------------------------------- actions

  /** The context that an action enters for the inside of a nested map or list. */
  function Inner(key: Word): LexerContext {
    match key
    case ControlAgentWord => Agent
    case LoggingWord => Logging
    case ControlSocketsWord => ControlSockets
    case Dhcp4Server => Server
    case Dhcp6Server => Server
    case D2Server => Server
    case HooksLibrariesWord => HooksLibraries
    case LoggersWord => Loggers
    case OutputOptionsWord => OutputOptions
    case _ => NoKeywords
  }

  function Enter(p: Parser, c: LexerContext): Parser {
    p.(cstack := p.cstack + [p.ctx], ctx := c)
  }

  function Leave(p: Parser): Result<Parser> {
    if p.cstack == [] then Threw
    else Ok(p.(ctx := p.cstack[|p.cstack| - 1], cstack := p.cstack[..|p.cstack| - 1]))
  }

  /** What the user-context rule does to the user context `id` it has built, for a map that may
      have one. */
  function UserContextStore(s: seq<Node>, top: nat, id: nat): Result<seq<Node>> {
    if top >= |s| || !s[top].MapNode? || id >= |s| || !s[id].MapNode? then Threw
    else if UserContextWord !in s[top].fields then Ok(s)
    else
      var before := s[top].fields[UserContextWord];
      if before >= |s| || !s[before].MapNode? then Threw
      else if |s[before].fields| != 1 || CommentWord !in s[before].fields then Threw
      else Ok(s[id := MapNode(s[id].fields[CommentWord := s[before].fields[CommentWord]])])
  }

  predicate IsNull(s: seq<Node>, id: nat) {
    id < |s| && s[id].NullNode?
  }

  function MergedFields(s: seq<Node>, a: map<Word, nat>, b: map<Word, nat>): map<Word, nat> {
    map k | k in a.Keys + b.Keys && !(k in b && IsNull(s, b[k])) :: if k in b then b[k] else a[k]
  }

  /** What the comment rule does to the lone comment `id` it has built. */
  function CommentStore(s: seq<Node>, top: nat, id: nat): Result<seq<Node>> {
    if top >= |s| || !s[top].MapNode? || id >= |s| || !s[id].MapNode? then Threw
    else if UserContextWord !in s[top].fields then Ok(s)
    else
      var before := s[top].fields[UserContextWord];
      if before >= |s| || !s[before].MapNode? then Threw
      else if CommentWord in s[before].fields then Threw
      else Ok(s[id := MapNode(MergedFields(s, s[id].fields, s[before].fields))])
  }

  function RunLeaf(p: Parser, key: Word, v: Value, plain: bool): Result<Parser> {
    var b :- RunValue(if plain then Enter(p, NoKeywords) else p, v);
    var q :- SetTop(b.p, key, b.id);
    if plain then Leave(q) else Ok(q)
  }

  function RunSocketType(p: Parser): Result<Parser> {
    var q := Enter(p, SocketType);
    if !Recognised(q.ctx, Unix) then Threw
    else
      var b := Alloc(q, StrNode(Unix));
      var r :- SetTop(b.p, SocketTypeWord, b.id);
      Leave(r)
  }

  /** The new user context is hung into the map, and the context left. */
  function HangAndLeave(p: Parser, store: Result<seq<Node>>, id: nat): Result<Parser> {
    var s :- store;
    var q :- SetTop(p.(store := s), UserContextWord, id);
    Leave(q)
  }

  function RunUserContext(p: Parser, entries: Entries): Result<Parser> {
    var b :- RunValue(Enter(p, NoKeywords), Object(entries));
    if b.p.stack == [] then Threw
    else HangAndLeave(b.p, UserContextStore(b.p.store, Top(b.p), b.id), b.id)
  }

  /** The lone comment as the two elements the rule makes. */
  function CommentNodes(s: seq<Node>, text: Word): seq<Node> {
    s + [MapNode(map[CommentWord := |s| + 1]), StrNode(text)]
  }

  function RunComment(p: Parser, text: Word): Result<Parser> {
    var q := Enter(p, NoKeywords);
    if Recognised(q.ctx, text) || p.stack == [] then Threw
    else
      HangAndLeave(q, CommentStore(CommentNodes(p.store, text), Top(p), |p.store|), |p.store|)
  }

  /** A new element, hung into the map at the top of the stack and pushed. */
  function Open(p: Parser, key: Word, n: Node): Result<Parser> {
    var b := Alloc(p, n);
    var q :- SetTop(b.p, key, b.id);
    Ok(Enter(Push(q, b.id), Inner(key)))
  }

  function Close(p: Parser): Result<Parser> {
    var b :- Pop(p);
    Leave(b.p)
  }

  /** A new map, added to the list at the top of the stack and pushed. */
  function OpenItem(p: Parser): Result<Parser> {
    var b := Alloc(p, MapNode(map[]));
    var q :- AddTop(b.p, b.id);
    Ok(Push(q, b.id))
  }

  function KeyOf(x: Param): Word {
    match x
    case Leaf(key, _, _) => key
    case SocketTypeIsUnix => SocketTypeWord
    case NestedMap(key, _) => key
    case NestedList(key, _) => key
    case UserContext(_) => UserContextWord
    case Comment(_) => CommentWord
    case Unknown(word) => word
  }

  /** The actions of an entry, in the order of its derivation. An entry matches its rule only if the
      lexer takes its first word for the keyword, in the context it is in; an unknown word is an error. */
  function RunParam(p: Parser, x: Param): Result<Parser>
    decreases x
  {
    if x.Unknown? || !Recognised(p.ctx, KeyOf(x)) then Threw
    else
      match x
      case Leaf(key, v, plain) => RunLeaf(p, key, v, plain)
      case SocketTypeIsUnix => RunSocketType(p)
      case NestedMap(key, body) => RunNestedMap(p, key, body)
      case NestedList(key, maps) => RunNestedList(p, key, maps)
      case UserContext(entries) => RunUserContext(p, entries)
      case Comment(text) => RunComment(p, text)
  }

  function RunNestedMap(p: Parser, key: Word, body: Params): Result<Parser>
    decreases body, 1
  {
    var q :- Open(p, key, MapNode(map[]));
    var r :- RunParams(q, body);
    Close(r)
  }

  function RunNestedList(p: Parser, key: Word, maps: Maps): Result<Parser>
    decreases maps, 1
  {
    var q :- Open(p, key, ListNode([]));
    var r :- RunMaps(q, maps);
    Close(r)
  }

  function RunParams(p: Parser, xs: Params): Result<Parser>
    decreases xs, 0
  {
    match xs
    case NoParams => Ok(p)
    case AndParam(init, x) =>
      var q :- RunParams(p, init);
      RunParam(q, x)
  }

  function RunMaps(p: Parser, maps: Maps): Result<Parser>
    decreases maps, 0
  {
    match maps
    case NoMaps => Ok(p)
    case AndMap(init, body) =>
      var q :- RunMaps(p, init);
      var r :- OpenItem(q);
      var s :- RunParams(r, body);
      var b :- Pop(s);
      Ok(b.p)
  }

  // ----------------------------------------------------------------- actions against denotation

  /** The actions succeed exactly when the derivation denotes something, and then the map at the top of
      the stack holds it and nothing else that existed has changed. */
  predicate MapAgrees(p: Parser, r: Result<Parser>, d: Result<map<Word, Tree>>)
    requires p.stack != []
  {
    && (r.Ok? <==> d.Ok?)
    && (r.Ok? ==> OnlyTop(p, r.value, Top(p)) && HoldsMap(r.value.store, Top(p), d.value))
  }

  predicate ListAgrees(p: Parser, r: Result<Parser>, d: Result<seq<Tree>>)
    requires p.stack != []
  {
    && (r.Ok? <==> d.Ok?)
    && (r.Ok? ==> OnlyTop(p, r.value, Top(p)) && HoldsList(r.value.store, Top(p), d.value))
  }

  lemma EnterLeave(p: Parser, c: LexerContext, q: Parser)
    requires SameStacks(Enter(p, c), q)
    ensures Leave(q).Ok? && SameStacks(p, Leave(q).value) && Leave(q).value.store == q.store
  {
    assert q.cstack[..|q.cstack| - 1] == p.cstack;
  }

  /** Hanging an element into the map at the top; it may share elements with what the map holds. */
  lemma Hang(p: Parser, m: map<Word, Tree>, q: Parser, id: nat, key: Word, t: Tree)
    requires p.stack != [] && HoldsMap(p.store, Top(p), m)
    requires q.stack == p.stack && Agree(p.store, q.store, 0, |p.store|) && Denotes(q.store, Top(p) + 1, |q.store|, id, t)
    ensures SetTop(q, key, id).Ok?
    ensures var r := SetTop(q, key, id).value;
            && SameStacks(q, r) && |r.store| == |q.store|
            && (forall i :: 0 <= i < |p.store| && i != Top(p) ==> r.store[i] == p.store[i])
            && HoldsMap(r.store, Top(p), m[key := t])
  {
    HoldsMapGrows(p.store, q.store, Top(p), m);
    SetHolds(q.store, Top(p), m, key, id, t);
  }

  lemma HangBuilt(p: Parser, m: map<Word, Tree>, q: Parser, id: nat, key: Word, t: Tree)
    requires p.stack != [] && HoldsMap(p.store, Top(p), m)
    requires q.stack == p.stack && p.store <= q.store && Denotes(q.store, |p.store|, |q.store|, id, t)
    ensures SetTop(q, key, id).Ok?
    ensures var r := SetTop(q, key, id).value;
            && SameStacks(q, r) && |r.store| == |q.store|
            && (forall i :: 0 <= i < |p.store| && i != Top(p) ==> r.store[i] == p.store[i])
            && HoldsMap(r.store, Top(p), m[key := t])
  {
    DenotesFrame(q.store, q.store, |p.store|, |q.store|, Top(p) + 1, |q.store|, id, t);
    Hang(p, m, q, id, key, t);
  }

  lemma LeafAgrees(p: Parser, m: map<Word, Tree>, key: Word, v: Value, plain: bool)
    requires p.stack != [] && HoldsMap(p.store, Top(p), m) && (plain || v.Integer? || v.Boolean?)
    ensures MapAgrees(p, RunLeaf(p, key, v, plain), Ok(m[key := Denote(v)]))
  {
    var q := if plain then Enter(p, NoKeywords) else p;
    if plain { BuildValue(q, v); }
    assert Builds(q, v);
    var b := RunValue(q, v).value;
    HangBuilt(p, m, b.p, b.id, key, Denote(v));
    if plain { EnterLeave(p, NoKeywords, SetTop(b.p, key, b.id).value); }
  }

  lemma SocketTypeAgrees(p: Parser, m: map<Word, Tree>)
    requires p.stack != [] && HoldsMap(p.store, Top(p), m)
    ensures MapAgrees(p, RunSocketType(p), Ok(m[SocketTypeWord := StrTree(Unix)]))
  {
    var b := Alloc(Enter(p, SocketType), StrNode(Unix));
    HangBuilt(p, m, b.p, b.id, SocketTypeWord, StrTree(Unix));
    EnterLeave(p, SocketType, SetTop(b.p, SocketTypeWord, b.id).value);
  }

  // ----------------------------------------------------------------- user contexts and comments

  /** Store surgery against trees: the new user context at `id`, built behind the old store. */
  predicate StoreAgrees(old': seq<Node>, lo: nat, r: Result<seq<Node>>, d: Result<map<Word, Tree>>, id: nat) {
    && (r.Ok? <==> d.Ok?)
    && (r.Ok? ==> Agree(old', r.value, 0, |old'|) && Denotes(r.value, lo, |r.value|, id, MapTree(d.value)))
  }

  lemma HungAgrees(p: Parser, m: map<Word, Tree>, q: Parser, store: Result<seq<Node>>, d: Result<map<Word, Tree>>, id: nat)
    requires p.stack != [] && HoldsMap(p.store, Top(p), m) && SameStacks(Enter(p, NoKeywords), q)
    requires StoreAgrees(p.store, Top(p) + 1, store, d, id)
    ensures MapAgrees(p, HangAndLeave(q, store, id), WithUserContext(m, d))
  {
    if store.Ok? {
      var q' := q.(store := store.value);
      Hang(p, m, q', id, UserContextWord, MapTree(d.value));
      EnterLeave(p, NoKeywords, SetTop(q', UserContextWord, id).value);
    }
  }

  /** The user context already in a map, as a node and as a tree. */
  lemma Before(old': seq<Node>, top: nat, m: map<Word, Tree>)
    requires HoldsMap(old', top, m) && UserContextWord in m
    ensures var before := old'[top].fields[UserContextWord];
            && before < |old'| && Denotes(old', top + 1, |old'|, before, m[UserContextWord])
            && (old'[before].MapNode? <==> m[UserContextWord].MapTree?)
  {
    var before := old'[top].fields[UserContextWord];
    assert Denotes(old', top + 1, |old'|, before, m[UserContextWord]);
  }

  lemma SameSize(s: seq<Node>, lo: nat, id: nat, m: map<Word, Tree>)
    requires Denotes(s, lo, |s|, id, MapTree(m))
    ensures |s[id].fields| == |m|
  {
    assert |s[id].fields| == |s[id].fields.Keys| && |m| == |m.Keys|;
  }

  /** A map node at the end of the old store, given one more branch from the old store. */
  lemma TakeOver(s: seq<Node>, lo: nat, id: nat, u: map<Word, Tree>, old': seq<Node>, key: Word, child: nat, t: Tree)
    requires HoldsMap(s, id, u) && old' <= s && |old'| == id && lo <= id && Denotes(old', lo, id, child, t)
    ensures var s' := s[id := MapNode(s[id].fields[key := child])]; Denotes(s', lo, |s'|, id, MapTree(u[key := t]))
  {
    var s' := s[id := MapNode(s[id].fields[key := child])];
    forall k | k in u[key := t] ensures Denotes(s', lo, |s'|, s'[id].fields[k], u[key := t][k]) {
      if k == key {
        DenotesFrame(old', s', lo, id, lo, |s'|, child, t);
      } else {
        DenotesFrame(s, s', id + 1, |s|, lo, |s'|, s[id].fields[k], u[k]);
      }
    }
  }

  lemma {:induction false} TakesOverBefore(old': seq<Node>, top: nat, m: map<Word, Tree>, s: seq<Node>, u: map<Word, Tree>)
    requires HoldsMap(old', top, m) && old' <= s && HoldsMap(s, |old'|, u) && UserContextWord in m
    ensures StoreAgrees(old', top + 1, UserContextStore(s, top, |old'|), UserContextFor(m, u), |old'|)
  {
    Before(old', top, m);
    var before := old'[top].fields[UserContextWord];
    assert s[top] == old'[top] && s[before] == old'[before];
    if old'[before].MapNode? {
      SameSize(old', top + 1, before, m[UserContextWord].branches);
      if CommentWord in old'[before].fields {
        TakeOver(s, top + 1, |old'|, u, old', CommentWord, old'[before].fields[CommentWord],
                 m[UserContextWord].branches[CommentWord]);
      }
    }
  }

  lemma {:induction false} UserContextStoreAgrees(old': seq<Node>, top: nat, m: map<Word, Tree>, s: seq<Node>, u: map<Word, Tree>)
    requires HoldsMap(old', top, m) && old' <= s && HoldsMap(s, |old'|, u)
    ensures StoreAgrees(old', top + 1, UserContextStore(s, top, |old'|), UserContextFor(m, u), |old'|)
  {
    if UserContextWord in m {
      TakesOverBefore(old', top, m, s, u);
    } else {
      assert s[top] == old'[top];
      MapDenotes(s, top + 1, |old'|, u);
    }
  }

  lemma {:induction false} UserContextHung(p: Parser, m: map<Word, Tree>, u: map<Word, Tree>, b: Built,
                                           store: Result<seq<Node>>, d: Result<map<Word, Tree>>)
    requires p.stack != [] && HoldsMap(p.store, Top(p), m) && SameStacks(Enter(p, NoKeywords), b.p)
    requires p.store <= b.p.store && b.id == |p.store| && HoldsMap(b.p.store, b.id, u)
    requires store == UserContextStore(b.p.store, Top(p), b.id) && d == UserContextFor(m, u)
    ensures MapAgrees(p, HangAndLeave(b.p, store, b.id), WithUserContext(m, d))
  {
    UserContextStoreAgrees(p.store, Top(p), m, b.p.store, u);
    HungAgrees(p, m, b.p, store, d, b.id);
  }

  /** The user context as the element its rule has built, and what is left for the rule to do. */
  lemma {:induction false} ContextBuilt(p: Parser, es: Entries) returns (u: map<Word, Tree>, b: Built, r: Result<Parser>)
    requires p.stack != []
    ensures u == Extended(map[], es) && r == RunUserContext(p, es)
    ensures SameStacks(Enter(p, NoKeywords), b.p) && p.store <= b.p.store && b.id == |p.store| && HoldsMap(b.p.store, b.id, u)
    ensures r == HangAndLeave(b.p, UserContextStore(b.p.store, Top(p), b.id), b.id)
  {
    BuildObject(Enter(p, NoKeywords), es);
    u, b := Extended(map[], es), RunValue(Enter(p, NoKeywords), Object(es)).value;
    r := RunUserContext(p, es);
  }

  lemma {:induction false} ContextAgrees(p: Parser, m: map<Word, Tree>, u: map<Word, Tree>, r: Result<Parser>, b: Built)
    requires p.stack != [] && HoldsMap(p.store, Top(p), m) && SameStacks(Enter(p, NoKeywords), b.p)
    requires p.store <= b.p.store && b.id == |p.store| && HoldsMap(b.p.store, b.id, u)
    requires r == HangAndLeave(b.p, UserContextStore(b.p.store, Top(p), b.id), b.id)
    ensures MapAgrees(p, r, WithUserContext(m, UserContextFor(m, u)))
  {
    UserContextHung(p, m, u, b, UserContextStore(b.p.store, Top(p), b.id), UserContextFor(m, u));
  }

  lemma {:induction false} UserContextAgrees(p: Parser, m: map<Word, Tree>, es: Entries)
    requires p.stack != [] && HoldsMap(p.store, Top(p), m)
    ensures MapAgrees(p, RunUserContext(p, es), WithUserContext(m, UserContextFor(m, Extended(map[], es))))
  {
    var u, b, r := ContextBuilt(p, es);
    ContextAgrees(p, m, u, r, b);
  }

  /** Whether a branch of the old user context is null shows in its node. */
  lemma NullAgrees(s: seq<Node>, c: seq<Node>, lo: nat, before: nat, old': map<Word, Tree>, k: Word)
    requires Denotes(s, lo, |s|, before, MapTree(old')) && s <= c && k in old'
    ensures c[before] == s[before] && k in c[before].fields
    ensures IsNull(c, c[before].fields[k]) <==> old'[k].NullTree?
  {
    assert Denotes(s, lo, |s|, s[before].fields[k], old'[k]);
  }

  lemma MergedKeys(s: seq<Node>, c: seq<Node>, lo: nat, before: nat, old': map<Word, Tree>, a: map<Word, nat>, u: map<Word, Tree>)
    requires Denotes(s, lo, |s|, before, MapTree(old')) && s <= c && a.Keys == u.Keys
    ensures c[before].MapNode? && c[before].fields.Keys == old'.Keys
    ensures MergedFields(c, a, c[before].fields).Keys == Merge(u, old').Keys
  {
    var merged, t := MergedFields(c, a, c[before].fields), Merge(u, old');
    forall k ensures k in merged <==> k in t {
      if k in old' { NullAgrees(s, c, lo, before, old', k); }
    }
  }

  lemma MergedChild(s: seq<Node>, c': seq<Node>, lo: nat, before: nat, old': map<Word, Tree>, k: Word)
    requires Denotes(s, lo, |s|, before, MapTree(old')) && Agree(s, c', 0, |s|) && k in old'
    ensures k in s[before].fields && Denotes(c', lo, |c'|, s[before].fields[k], old'[k])
  {
    DenotesFrame(s, c', lo, |s|, lo, |c'|, s[before].fields[k], old'[k]);
  }

  lemma MergedAt(s: seq<Node>, lo: nat, before: nat, old': map<Word, Tree>, text: Word, c': seq<Node>, k: Word)
    requires Denotes(s, lo, |s|, before, MapTree(old')) && lo <= |s|
    requires |c'| == |s| + 2 && Agree(s, c', 0, |s|) && c'[|s| + 1] == StrNode(text)
    requires k in Merge(map[CommentWord := StrTree(text)], old')
    requires k in MergedFields(CommentNodes(s, text), map[CommentWord := |s| + 1], s[before].fields)
    ensures Denotes(c', lo, |c'|, MergedFields(CommentNodes(s, text), map[CommentWord := |s| + 1], s[before].fields)[k],
                    Merge(map[CommentWord := StrTree(text)], old')[k])
  {
    if k in old' {
      MergedChild(s, c', lo, before, old', k);
    } else {
      assert k == CommentWord;
    }
  }

  lemma {:induction false} MergeAgrees(s: seq<Node>, lo: nat, before: nat, old': map<Word, Tree>, text: Word)
    requires Denotes(s, lo, |s|, before, MapTree(old')) && lo <= |s|
    ensures var c := CommentNodes(s, text);
            var c' := c[|s| := MapNode(MergedFields(c, c[|s|].fields, c[before].fields))];
            Denotes(c', lo, |c'|, |s|, MapTree(Merge(map[CommentWord := StrTree(text)], old')))
  {
    var c := CommentNodes(s, text);
    var u, a := map[CommentWord := StrTree(text)], map[CommentWord := |s| + 1];
    MergedKeys(s, c, lo, before, old', a, u);
    var merged := MergedFields(c, a, c[before].fields);
    var c' := c[|s| := MapNode(merged)];
    forall k | k in Merge(u, old') ensures Denotes(c', lo, |c'|, merged[k], Merge(u, old')[k]) {
      MergedAt(s, lo, before, old', text, c', k);
    }
  }

  lemma LoneComment(s: seq<Node>, lo: nat, text: Word)
    requires lo <= |s|
    ensures Denotes(CommentNodes(s, text), lo, |s| + 2, |s|, MapTree(map[CommentWord := StrTree(text)]))
  {
  }

  lemma CommentStoreAgrees(old': seq<Node>, top: nat, m: map<Word, Tree>, text: Word)
    requires HoldsMap(old', top, m)
    ensures StoreAgrees(old', top + 1, CommentStore(CommentNodes(old', text), top, |old'|), CommentFor(m, text), |old'|)
  {
    var s := CommentNodes(old', text);
    assert s[top] == old'[top];
    if UserContextWord !in m {
      LoneComment(old', top + 1, text);
    } else {
      Before(old', top, m);
      var before := old'[top].fields[UserContextWord];
      assert s[before] == old'[before];
      if old'[before].MapNode? {
        MergeAgrees(old', top + 1, before, m[UserContextWord].branches, text);
      }
    }
  }

  lemma {:induction false} CommentHung(p: Parser, m: map<Word, Tree>, text: Word, q: Parser, store: Result<seq<Node>>, d: Result<map<Word, Tree>>)
    requires p.stack != [] && HoldsMap(p.store, Top(p), m) && SameStacks(Enter(p, NoKeywords), q)
    requires store == CommentStore(CommentNodes(p.store, text), Top(p), |p.store|) && d == CommentFor(m, text)
    ensures MapAgrees(p, HangAndLeave(q, store, |p.store|), WithUserContext(m, d))
  {
    CommentStoreAgrees(p.store, Top(p), m, text);
    HungAgrees(p, m, q, store, d, |p.store|);
  }

  lemma {:induction false} CommentAgrees(p: Parser, m: map<Word, Tree>, text: Word)
    requires p.stack != [] && HoldsMap(p.store, Top(p), m)
    ensures MapAgrees(p, RunComment(p, text), WithUserContext(m, CommentFor(m, text)))
  {
    CommentHung(p, m, text, Enter(p, NoKeywords), CommentStore(CommentNodes(p.store, text), Top(p), |p.store|), CommentFor(m, text));
  }

  // ----------------------------------------------------------------- nested maps and lists

  /** A child hung empty and filled later: once it stands for its tree, its parent holds it. */
  lemma NestedHolds(old': seq<Node>, top: nat, m: map<Word, Tree>, s: seq<Node>, key: Word, t: Tree)
    requires HoldsMap(old', top, m) && |old'| < |s|
    requires s[top] == MapNode(old'[top].fields[key := |old'|]) && Agree(old', s, top + 1, |old'|)
    requires Denotes(s, top + 1, |s|, |old'|, t)
    ensures HoldsMap(s, top, m[key := t])
  {
    forall k | k in m[key := t] ensures Denotes(s, top + 1, |s|, s[top].fields[k], m[key := t][k]) {
      if k != key {
        DenotesFrame(old', s, top + 1, |old'|, top + 1, |s|, old'[top].fields[k], m[k]);
      }
    }
  }

  /** Opening a nested element: it is new, at the top of the stack, and hung into its parent. */
  lemma Opened(p: Parser, m: map<Word, Tree>, key: Word, n: Node)
    requires p.stack != [] && HoldsMap(p.store, Top(p), m)
    ensures Open(p, key, n).Ok?
    ensures var q := Open(p, key, n).value;
            && q.stack == p.stack + [|p.store|] && q.ctx == Inner(key) && q.cstack == p.cstack + [p.ctx]
            && q.store == (p.store + [n])[Top(p) := MapNode(p.store[Top(p)].fields[key := |p.store|])]
  {
  }

  /** Closing it again, whatever it was filled with. */
  lemma Closed(p: Parser, m: map<Word, Tree>, key: Word, n: Node, q: Parser, r: Parser, t: Tree)
    requires p.stack != [] && HoldsMap(p.store, Top(p), m) && Open(p, key, n) == Ok(q)
    requires OnlyTop(q, r, |p.store|) && Denotes(r.store, Top(p) + 1, |r.store|, |p.store|, t)
    ensures Close(r).Ok? && OnlyTop(p, Close(r).value, Top(p)) && HoldsMap(Close(r).value.store, Top(p), m[key := t])
  {
    Opened(p, m, key, n);
    NestedHolds(p.store, Top(p), m, r.store, key, t);
    assert r.stack[..|r.stack| - 1] == p.stack && r.cstack[..|r.cstack| - 1] == p.cstack;
  }

  /** A map or list just opened: at the top of the stack, empty, in its own context. */
  lemma NewlyOpened(p: Parser, m: map<Word, Tree>, key: Word, n: Node) returns (q: Parser)
    requires p.stack != [] && HoldsMap(p.store, Top(p), m)
    ensures Open(p, key, n) == Ok(q) && q.stack != [] && Top(q) == |p.store| && q.ctx == Inner(key)
    ensures n == MapNode(map[]) ==> HoldsMap(q.store, Top(q), map[])
    ensures n == ListNode([]) ==> HoldsList(q.store, Top(q), [])
  {
    Opened(p, m, key, n);
    q := Open(p, key, n).value;
  }

  lemma MapClosed(p: Parser, m: map<Word, Tree>, key: Word, q: Parser, r: Parser, inner: map<Word, Tree>)
    requires p.stack != [] && HoldsMap(p.store, Top(p), m) && Open(p, key, MapNode(map[])) == Ok(q)
    requires OnlyTop(q, r, |p.store|) && HoldsMap(r.store, |p.store|, inner)
    ensures MapAgrees(p, Close(r), Ok(m[key := MapTree(inner)]))
  {
    MapDenotes(r.store, Top(p) + 1, |p.store|, inner);
    Closed(p, m, key, MapNode(map[]), q, r, MapTree(inner));
  }

  lemma ListClosed(p: Parser, m: map<Word, Tree>, key: Word, q: Parser, r: Parser, inner: seq<Tree>)
    requires p.stack != [] && HoldsMap(p.store, Top(p), m) && Open(p, key, ListNode([])) == Ok(q)
    requires OnlyTop(q, r, |p.store|) && HoldsList(r.store, |p.store|, inner)
    ensures MapAgrees(p, Close(r), Ok(m[key := ListTree(inner)]))
  {
    ListDenotes(r.store, Top(p) + 1, |p.store|, inner);
    Closed(p, m, key, ListNode([]), q, r, ListTree(inner));
  }

  // ----------------------------------------------------------------- the grammar theorem

  /** The context in which the lexer must be while the parser reads a map. */
  function Ctx(k: MapKind): LexerContext {
    match k
    case FileMap => Config
    case AgentMap => Agent
    case SocketsMap => ControlSockets
    case SocketMap => Server
    case HookMap => HooksLibraries
    case LoggingMap => Logging
    case LoggerMap => Loggers
    case OutputMap => OutputOptions
  }

  /** The lexer is right: in the context of a map, every entry of its rule starts with a word that is
      taken for its keyword. */
  lemma KeywordSeen(x: Param, k: MapKind)
    requires InMap(x, k) && !x.Unknown?
    ensures Recognised(Ctx(k), KeyOf(x))
  {
  }

  /** An entry of a rule that starts with the given keyword. */
  function Sample(w: Word): Param {
    match w
    case UserContextWord => UserContext(NoEntries)
    case CommentWord => Comment(Other(""))
    case SocketTypeWord => SocketTypeIsUnix
    case HttpPort => Leaf(w, Integer(0), false)
    case DebugLevel => Leaf(w, Integer(0), false)
    case MaxSize => Leaf(w, Integer(0), false)
    case MaxVer => Leaf(w, Integer(0), false)
    case Flush => Leaf(w, Boolean(false), false)
    case HooksLibrariesWord => NestedList(w, NoMaps)
    case LoggersWord => NestedList(w, NoMaps)
    case OutputOptionsWord => NestedList(w, NoMaps)
    case _ => if Inner(w).NoKeywords? then Leaf(w, String(Other("")), true) else NestedMap(w, NoParams)
  }

  /** And takes no other word for a keyword there: the keywords of a context are exactly the first words
      of the entries of its rule. */
  lemma KeywordsExactly(w: Word, k: MapKind)
    ensures Recognised(Ctx(k), w) <==> exists x :: InMap(x, k) && !x.Unknown? && KeyOf(x) == w
  {
    if Recognised(Ctx(k), w) {
      SampleFits(w, k);
    }
    forall x | InMap(x, k) && !x.Unknown? && KeyOf(x) == w ensures Recognised(Ctx(k), w) {
      KeywordSeen(x, k);
    }
  }

  lemma SampleFits(w: Word, k: MapKind)
    requires Recognised(Ctx(k), w)
    ensures InMap(Sample(w), k) && !Sample(w).Unknown? && KeyOf(Sample(w)) == w
  {
    SampleListed(w, k);
  }

  lemma SampleListed(w: Word, k: MapKind)
    requires Recognised(Ctx(k), w)
    ensures Listed(Sample(w), k) && !Sample(w).Unknown? && KeyOf(Sample(w)) == w
    ensures Sample(w).NestedMap? ==> Sample(w).body.NoParams?
    ensures Sample(w).NestedList? ==> Sample(w).maps.NoMaps?
  {
  }

  /** The context entered for a nested map or list is the context of the map its rule asks for. */
  lemma NestedKind(x: Param, k: MapKind)
    requires InMap(x, k) && (x.NestedMap? || x.NestedList?)
    ensures Inner(x.key) == Ctx(RuleOf(x.key))
  {
  }

  /** In the context of its map, an entry of the rule does what it denotes: the actions fail exactly when
      it denotes an error, and otherwise restore every stack and leave the map holding what it denotes. */
  lemma {:induction false} ParamAgrees(p: Parser, x: Param, k: MapKind, m: map<Word, Tree>)
    requires p.stack != [] && HoldsMap(p.store, Top(p), m) && InMap(x, k) && p.ctx == Ctx(k)
    ensures MapAgrees(p, RunParam(p, x), DenoteParam(m, x))
    decreases x, 1
  {
    if x.NestedMap? {
      KeywordSeen(x, k);
      NestedKind(x, k);
      NestedMapAgrees(p, x.key, x.body, RuleOf(x.key), m);
    } else if x.NestedList? {
      KeywordSeen(x, k);
      NestedKind(x, k);
      NestedListAgrees(p, x.key, x.maps, RuleOf(x.key), m);
    } else {
      SimpleParamAgrees(p, x, k, m);
    }
  }

  lemma {:induction false} SimpleParamAgrees(p: Parser, x: Param, k: MapKind, m: map<Word, Tree>)
    requires p.stack != [] && HoldsMap(p.store, Top(p), m) && InMap(x, k) && p.ctx == Ctx(k)
    requires !x.NestedMap? && !x.NestedList?
    ensures MapAgrees(p, RunParam(p, x), DenoteParam(m, x))
  {
    if !x.Unknown? {
      KeywordSeen(x, k);
      if x.Leaf? {
        LeafAgrees(p, m, x.key, x.v, x.plain);
      } else if x.SocketTypeIsUnix? {
        SocketTypeAgrees(p, m);
      } else if x.UserContext? {
        UserContextAgrees(p, m, x.entries);
      } else {
        CommentAgrees(p, m, x.text);
      }
    }
  }

  lemma {:induction false} MapNested(p: Parser, m: map<Word, Tree>, key: Word, q: Parser, r: Result<Parser>, d: Result<map<Word, Tree>>)
    requires p.stack != [] && HoldsMap(p.store, Top(p), m) && Open(p, key, MapNode(map[])) == Ok(q)
    requires q.stack != [] && Top(q) == |p.store| && MapAgrees(q, r, d)
    ensures MapAgrees(p, if r.Ok? then Close(r.value) else Threw, if d.Ok? then Ok(m[key := MapTree(d.value)]) else Threw)
  {
    if r.Ok? { MapClosed(p, m, key, q, r.value, d.value); }
  }

  lemma {:induction false} ListNested(p: Parser, m: map<Word, Tree>, key: Word, q: Parser, r: Result<Parser>, d: Result<seq<Tree>>)
    requires p.stack != [] && HoldsMap(p.store, Top(p), m) && Open(p, key, ListNode([])) == Ok(q)
    requires q.stack != [] && Top(q) == |p.store| && ListAgrees(q, r, d)
    ensures MapAgrees(p, if r.Ok? then Close(r.value) else Threw, if d.Ok? then Ok(m[key := ListTree(d.value)]) else Threw)
  {
    if r.Ok? { ListClosed(p, m, key, q, r.value, d.value); }
  }

  lemma {:induction false} NestedMapAgrees(p: Parser, key: Word, body: Params, k: MapKind, m: map<Word, Tree>)
    requires p.stack != [] && HoldsMap(p.store, Top(p), m) && InMaps(body, k) && Inner(key) == Ctx(k)
    ensures MapAgrees(p, RunNestedMap(p, key, body), DenoteNestedMap(m, key, body))
    decreases body, 1
  {
    var q := NewlyOpened(p, m, key, MapNode(map[]));
    ParamsAgree(q, body, k, map[]);
    MapNested(p, m, key, q, RunParams(q, body), DenoteParams(map[], body));
  }

  lemma {:induction false} NestedListAgrees(p: Parser, key: Word, maps: Maps, k: MapKind, m: map<Word, Tree>)
    requires p.stack != [] && HoldsMap(p.store, Top(p), m) && InLists(maps, k) && Inner(key) == Ctx(k)
    ensures MapAgrees(p, RunNestedList(p, key, maps), DenoteNestedList(m, key, maps))
    decreases maps, 1
  {
    var q := NewlyOpened(p, m, key, ListNode([]));
    MapsAgree(q, maps, k, []);
    ListNested(p, m, key, q, RunMaps(q, maps), DenoteMaps([], maps));
  }

  /** Agreement after a stretch that changed only the map at the top. */
  lemma AgreesAfter(p: Parser, q: Parser, r: Result<Parser>, d: Result<map<Word, Tree>>)
    requires p.stack != [] && OnlyTop(p, q, Top(p)) && MapAgrees(q, r, d)
    ensures MapAgrees(p, r, d)
  {
  }

  lemma {:induction false} ParamsAgree(p: Parser, xs: Params, k: MapKind, m: map<Word, Tree>)
    requires p.stack != [] && HoldsMap(p.store, Top(p), m) && InMaps(xs, k) && p.ctx == Ctx(k)
    ensures MapAgrees(p, RunParams(p, xs), DenoteParams(m, xs))
    decreases xs, 0
  {
    if xs.AndParam? {
      ParamsAgree(p, xs.init, k, m);
      var q, n := RunParams(p, xs.init), DenoteParams(m, xs.init);
      if q.Ok? {
        ParamAgrees(q.value, xs.x, k, n.value);
        AgreesAfter(p, q.value, RunParam(q.value, xs.x), DenoteParam(n.value, xs.x));
      }
    }
  }

  /** A list of maps, each added to the list before it is filled. */
  lemma {:induction false} MapsAgree(p: Parser, maps: Maps, k: MapKind, ts: seq<Tree>)
    requires p.stack != [] && HoldsList(p.store, Top(p), ts) && InLists(maps, k) && p.ctx == Ctx(k)
    ensures ListAgrees(p, RunMaps(p, maps), DenoteMaps(ts, maps))
    decreases maps, 0
  {
    if maps.AndMap? {
      MapsAgree(p, maps.init, k, ts);
      var q := RunMaps(p, maps.init);
      if q.Ok? {
        var us := DenoteMaps(ts, maps.init).value;
        ItemOpened(q.value, us);
        var r := OpenItem(q.value).value;
        ParamsAgree(r, maps.body, k, map[]);
        var s := RunParams(r, maps.body);
        if s.Ok? {
          ItemClosed(q.value, us, s.value, DenoteParams(map[], maps.body).value);
        }
      }
    }
  }

  lemma ItemOpened(p: Parser, ts: seq<Tree>)
    requires p.stack != [] && HoldsList(p.store, Top(p), ts)
    ensures OpenItem(p).Ok?
    ensures var q := OpenItem(p).value;
            && q.stack == p.stack + [|p.store|] && q.ctx == p.ctx && q.cstack == p.cstack
            && q.store == (p.store + [MapNode(map[])])[Top(p) := ListNode(p.store[Top(p)].items + [|p.store|])]
            && HoldsMap(q.store, |p.store|, map[])
  {
  }

  lemma ItemClosed(p: Parser, ts: seq<Tree>, s: Parser, m: map<Word, Tree>)
    requires p.stack != [] && HoldsList(p.store, Top(p), ts) && OpenItem(p).Ok?
    requires OnlyTop(OpenItem(p).value, s, |p.store|) && HoldsMap(s.store, |p.store|, m)
    ensures Pop(s).Ok? && OnlyTop(p, Pop(s).value.p, Top(p)) && HoldsList(Pop(s).value.p.store, Top(p), ts + [MapTree(m)])
  {
    ItemOpened(p, ts);
    MapDenotes(s.store, Top(p) + 1, |p.store|, m);
    forall i | 0 <= i < |ts| ensures Denotes(s.store, Top(p) + 1, |s.store|, s.store[Top(p)].items[i], ts[i]) {
      DenotesFrame(p.store, s.store, Top(p) + 1, |p.store|, Top(p) + 1, |s.store|, p.store[Top(p)].items[i], ts[i]);
    }
    assert s.stack[..|s.stack| - 1] == p.stack;
  }

  // ----------------------------------------------------------------- whole parses

  /** What to parse: any JSON, a configuration file, or the inside of its Control-agent map. */
  datatype Start = StartJson(v: Value) | StartAgent(body: Params) | StartSubAgent(inside: Params)

  predicate StartAllowed(x: Start) {
    match x
    case StartJson(_) => true
    case StartAgent(body) => InMaps(body, FileMap)
    case StartSubAgent(inside) => InMaps(inside, AgentMap)
  }

  function DenoteStart(x: Start): Result<Tree> {
    match x
    case StartJson(v) => Ok(Denote(v))
    case StartAgent(body) =>
      var m :- DenoteParams(map[], body);
      Ok(MapTree(m))
    case StartSubAgent(inside) =>
      var m :- DenoteParams(map[], inside);
      Ok(MapTree(m))
  }

  function RunMap(p: Parser, c: LexerContext, xs: Params): Result<Parser> {
    RunParams(NewOnStack(p.(ctx := c), MapNode(map[])), xs)
  }

  function RunStart(p: Parser, x: Start): Result<Parser> {
    match x
    case StartJson(v) =>
      var b :- RunValue(p.(ctx := NoKeywords), v);
      Ok(Push(b.p, b.id))
    case StartAgent(body) => RunMap(p, Config, body)
    case StartSubAgent(inside) => RunMap(p, Agent, inside)
  }

  /** `parseCommon`: exactly one element must be on the stack at the end. */
  function ParseCommon(p: Parser, x: Start): Result<Built> {
    var q :- RunStart(p, x);
    if |q.stack| == 1 then Ok(Built(q, q.stack[0])) else Threw
  }

  lemma RunMapAgrees(p: Parser, k: MapKind, xs: Params)
    requires InMaps(xs, k)
    ensures var r, d := RunMap(p, Ctx(k), xs), DenoteParams(map[], xs);
            && (r.Ok? <==> d.Ok?)
            && (r.Ok? ==>
                  && r.value.stack == p.stack + [|p.store|] && r.value.cstack == p.cstack
                  && p.store <= r.value.store
                  && Denotes(r.value.store, |p.store|, |r.value.store|, |p.store|, MapTree(d.value)))
  {
    var q := NewOnStack(p.(ctx := Ctx(k)), MapNode(map[]));
    ParamsAgree(q, xs, k, map[]);
    if RunParams(q, xs).Ok? {
      MapDenotes(RunParams(q, xs).value.store, |p.store|, |p.store|, DenoteParams(map[], xs).value);
    }
  }

  /** Every derivation by the rules: the actions fail exactly when it denotes an error; otherwise they leave
      the context stack and all earlier elements as they were and push one element, which stands for
      what the derivation denotes. */
  lemma StartAgrees(p: Parser, x: Start)
    requires StartAllowed(x)
    ensures var r, d := RunStart(p, x), DenoteStart(x);
            && (r.Ok? <==> d.Ok?)
            && (r.Ok? ==>
                  && |r.value.stack| == |p.stack| + 1 && p.stack <= r.value.stack && r.value.cstack == p.cstack
                  && p.store <= r.value.store
                  && Denotes(r.value.store, |p.store|, |r.value.store|, Top(r.value), d.value))
  {
    match x {
      case StartJson(v) => BuildValue(p.(ctx := NoKeywords), v);
      case StartAgent(body) => RunMapAgrees(p, FileMap, body);
      case StartSubAgent(inside) => RunMapAgrees(p, AgentMap, inside);
    }
  }

  /** A parser whose stack is empty finds exactly one element after every error-free derivation; one
      that has parsed before, and so keeps its earlier result on the stack, never does. */
  lemma ParseCommonAgrees(p: Parser, x: Start)
    requires StartAllowed(x)
    ensures ParseCommon(p, x).Ok? <==> p.stack == [] && DenoteStart(x).Ok?
    ensures ParseCommon(p, x).Ok? ==>
              var b := ParseCommon(p, x).value;
              b.p.cstack == p.cstack && Denotes(b.p.store, |p.store|, |b.p.store|, b.id, DenoteStart(x).value)
  {
    StartAgrees(p, x);
  }

  // ----------------------------------------------------------------- what a map of entries denotes

  /** The key an entry goes under; a comment goes into the user context. */
  function Target(x: Param): Word {
    if x.Comment? then UserContextWord else KeyOf(x)
  }

  /** What an entry that is neither a user context nor a comment stands for. */
  function EntryTree(x: Param): Result<Tree> {
    match x
    case Leaf(_, v, _) => Ok(Denote(v))
    case SocketTypeIsUnix => Ok(StrTree(Unix))
    case NestedMap(_, body) => (var m :- DenoteParams(map[], body); Ok(MapTree(m)))
    case NestedList(_, maps) => (var ts :- DenoteMaps([], maps); Ok(ListTree(ts)))
    case _ => Threw
  }

  function ParamList(xs: Params): seq<Param> {
    match xs
    case NoParams => []
    case AndParam(init, x) => ParamList(init) + [x]
  }

  lemma EntryEffect(m: map<Word, Tree>, x: Param)
    ensures var r := DenoteParam(m, x);
            && (r.Ok? ==> Target(x) in r.value && r.value == m[Target(x) := r.value[Target(x)]])
            && (!x.UserContext? && !x.Comment? ==>
                  (r.Ok? <==> EntryTree(x).Ok?) && (r.Ok? ==> r.value[Target(x)] == EntryTree(x).value))
  {
  }

  /** A map of entries has the keys of its entries, each with what its last entry stands for. */
  lemma {:induction false} LastParamWins(xs: Params, w: Word, i: nat)
    requires DenoteParams(map[], xs).Ok?
    ensures var m, list := DenoteParams(map[], xs).value, ParamList(xs);
            && (w in m <==> exists j :: 0 <= j < |list| && Target(list[j]) == w)
            && (i < |list| && Target(list[i]) == w && w != UserContextWord
                && (forall j :: i < j < |list| ==> Target(list[j]) != w)
                ==> w in m && EntryTree(list[i]) == Ok(m[w]))
    decreases xs
  {
    if xs.AndParam? {
      LastParamWins(xs.init, w, i);
      var before, all := ParamList(xs.init), ParamList(xs);
      EntryEffect(DenoteParams(map[], xs.init).value, xs.x);
      assert all[|before|] == xs.x && forall j :: 0 <= j < |before| ==> all[j] == before[j];
      if Target(xs.x) != w && w in DenoteParams(map[], xs.init).value {
        var j :| 0 <= j < |before| && Target(before[j]) == w;
        assert Target(all[j]) == w;
      }
    }
  }

  // ----------------------------------------------------------------- user contexts and comments in a map

  /** The first user context of a map is taken as it is, and a second one exactly when the first was
      nothing but a comment, which it then takes over. */
  lemma ContextTwice(m: map<Word, Tree>, a: Entries, b: Entries)
    requires UserContextWord !in m
    ensures var u, v := Extended(map[], a), Extended(map[], b);
            var first := m[UserContextWord := MapTree(u)];
            && DenoteParam(m, UserContext(a)) == Ok(first)
            && (DenoteParam(first, UserContext(b)).Ok? <==> u.Keys == {CommentWord})
            && (u.Keys == {CommentWord} ==>
                  DenoteParam(first, UserContext(b)) == Ok(first[UserContextWord := MapTree(v[CommentWord := u[CommentWord]])]))
  {
    var u := Extended(map[], a);
    assert |u| == |u.Keys|;
    if |u| == 1 && CommentWord in u { assert |u.Keys - {CommentWord}| == 0; }
  }

  /** The first comment of a map makes a user context, and a second comment is refused. */
  lemma CommentTwice(m: map<Word, Tree>, s: Word, t: Word)
    requires UserContextWord !in m
    ensures var first := m[UserContextWord := MapTree(map[CommentWord := StrTree(s)])];
            DenoteParam(m, Comment(s)) == Ok(first) && DenoteParam(first, Comment(t)).Threw?
  {
  }

  // ----------------------------------------------------------------- order of comments

  /** Merging a comment into a user context without one keeps all of it exactly when it has no null. */
  lemma MergeIsAddition(u: map<Word, Tree>, t: Tree)
    requires CommentWord !in u
    ensures Merge(map[CommentWord := t], u) == u[CommentWord := t] <==> forall k :: k in u ==> !u[k].NullTree?
  {
    var merged, added := Merge(map[CommentWord := t], u), u[CommentWord := t];
    if merged == added {
      forall k | k in u ensures !u[k].NullTree? { assert k in added; }
    }
  }

  lemma ContextThenComment(m: map<Word, Tree>, u: map<Word, Tree>, text: Word)
    ensures var first := m[UserContextWord := MapTree(u)];
            var merged := MapTree(Merge(map[CommentWord := StrTree(text)], u));
            var r := WithUserContext(first, CommentFor(first, text));
            if CommentWord in u then r.Threw? else r == Ok(m[UserContextWord := merged])
  {
    var first := m[UserContextWord := MapTree(u)];
    assert first[UserContextWord] == MapTree(u);
    var v := MapTree(Merge(map[CommentWord := StrTree(text)], u));
    assert first[UserContextWord := v] == m[UserContextWord := v];
  }

  lemma CommentThenContext(m: map<Word, Tree>, u: map<Word, Tree>, text: Word)
    ensures var second := m[UserContextWord := MapTree(map[CommentWord := StrTree(text)])];
            WithUserContext(second, UserContextFor(second, u)) == Ok(m[UserContextWord := MapTree(u[CommentWord := StrTree(text)])])
  {
    var c := map[CommentWord := StrTree(text)];
    var second := m[UserContextWord := MapTree(c)];
    assert second[UserContextWord] == MapTree(c);
    assert |c| == |c.Keys| && c.Keys == {CommentWord};
    var v := MapTree(u[CommentWord := StrTree(text)]);
    assert second[UserContextWord := v] == m[UserContextWord := v];
  }

  lemma SameEntry(m: map<Word, Tree>, a: Tree, b: Tree)
    ensures m[UserContextWord := a] == m[UserContextWord := b] <==> a == b
  {
    assert m[UserContextWord := a][UserContextWord] == a && m[UserContextWord := b][UserContextWord] == b;
  }

  /** A user context and a comment in either order, as first entries of a map: they come to the same
      exactly when the user context has no comment of its own and no null entry. */
  lemma CommentOrder(m: map<Word, Tree>, u: map<Word, Tree>, text: Word)
    ensures var first := m[UserContextWord := MapTree(u)];
            var second := m[UserContextWord := MapTree(map[CommentWord := StrTree(text)])];
            WithUserContext(first, CommentFor(first, text)) == WithUserContext(second, UserContextFor(second, u))
            <==> CommentWord !in u && forall k :: k in u ==> !u[k].NullTree?
  {
    ContextThenComment(m, u, text);
    CommentThenContext(m, u, text);
    if CommentWord !in u {
      MergeIsAddition(u, StrTree(text));
      SameEntry(m, MapTree(Merge(map[CommentWord := StrTree(text)], u)), MapTree(u[CommentWord := StrTree(text)]));
    }
  }
}
