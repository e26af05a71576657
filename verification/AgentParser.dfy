/** The parser context of parser_context.h as an object: the element store, the two stacks and the
    lexical context, changed in place by the semantic actions.
 */
module AgentParser {
  import opened Text
  import opened ElementStack
  import opened AgentGrammar

  class ParserContext {
    var store: seq<Node>
    var stack: seq<nat>
    var ctx: LexerContext
    var cstack: seq<LexerContext>

    function Model(): Parser
      reads this
    {
      Parser(store, stack, ctx, cstack)
    }

    constructor ()
      ensures Model() == Parser([], [], NoKeywords, [])
    {
      store, stack, ctx, cstack := [], [], NoKeywords, [];
    }

    method New(n: Node) returns (id: nat)
      modifies `store
      ensures Alloc(old(Model()), n) == Built(Model(), id)
    {
      id := |store|;
      store := store + [n];
    }

    method Set(node: nat, key: Word, id: nat) returns (ok: bool)
      modifies `store
      ensures var r := SetNode(old(Model()), node, key, id); ok == r.Ok? && (ok ==> Model() == r.value)
    {
      if node >= |store| || !store[node].MapNode? { return false; }
      store := store[node := MapNode(store[node].fields[key := id])];
      ok := true;
    }

    method SetBack(key: Word, id: nat) returns (ok: bool)
      modifies `store
      ensures var r := SetTop(old(Model()), key, id); ok == r.Ok? && (ok ==> Model() == r.value)
    {
      if stack == [] { return false; }
      ok := Set(stack[|stack| - 1], key, id);
    }

    method AddBack(id: nat) returns (ok: bool)
      modifies `store
      ensures var r := AddTop(old(Model()), id); ok == r.Ok? && (ok ==> Model() == r.value)
    {
      if stack == [] { return false; }
      var top := stack[|stack| - 1];
      if top >= |store| || !store[top].ListNode? { return false; }
      store := store[top := ListNode(store[top].items + [id])];
      ok := true;
    }

    method PushBack(id: nat)
      modifies `stack
      ensures Model() == Push(old(Model()), id)
    {
      stack := stack + [id];
    }

    method PopBack() returns (id: Option<nat>)
      modifies `stack
      ensures var r := Pop(old(Model())); id.Some? == r.Ok? && (id.Some? ==> r.value == Built(Model(), id.value))
    {
      if stack == [] { return None; }
      id := Some(stack[|stack| - 1]);
      stack := stack[..|stack| - 1];
    }

    method EnterContext(c: LexerContext)
      modifies `ctx, `cstack
      ensures Model() == Enter(old(Model()), c)
    {
      cstack := cstack + [ctx];
      ctx := c;
    }

    method LeaveContext() returns (ok: bool)
      modifies `ctx, `cstack
      ensures var r := Leave(old(Model())); ok == r.Ok? && (ok ==> Model() == r.value)
    {
      if cstack == [] { return false; }
      ctx := cstack[|cstack| - 1];
      cstack := cstack[..|cstack| - 1];
      ok := true;
    }

    // ----------------------------------------------------------------- generic JSON

    method ValueActions(v: Value) returns (id: Option<nat>)
      modifies this
      ensures var r := RunValue(old(Model()), v); id.Some? == r.Ok? && (id.Some? ==> r.value == Built(Model(), id.value))
      decreases v
    {
      var n: nat;
      if v.Object? {
        n := New(MapNode(map[]));
        PushBack(n);
        var ok := EntryActions(v.entries);
        if !ok { return None; }
        id := PopBack();
      } else if v.Array? {
        n := New(ListNode([]));
        PushBack(n);
        var ok := ItemActions(v.items);
        if !ok { return None; }
        id := PopBack();
      } else if v.String? {
        if Recognised(ctx, v.w) { return None; }
        n := New(StrNode(v.w));
        id := Some(n);
      } else {
        n := New(ScalarNode(v));
        id := Some(n);
      }
    }

    static function ScalarNode(v: Value): Node
      requires !v.Object? && !v.Array? && !v.String?
    {
      match v
      case Integer(i) => IntNode(i)
      case Float(r) => RealNode(r)
      case Boolean(b) => BoolNode(b)
      case NullType => NullNode
    }

    method EntryActions(es: Entries) returns (ok: bool)
      modifies this
      ensures var r := RunEntries(old(Model()), es); ok == r.Ok? && (ok ==> Model() == r.value)
      decreases es
    {
      if es.NoEntries? { return true; }
      ok := EntryActions(es.init);
      if !ok { return; }
      if Recognised(ctx, es.key) { return false; }
      var id := ValueActions(es.v);
      if id.None? { return false; }
      ok := SetBack(es.key, id.value);
    }

    method ItemActions(items: Items) returns (ok: bool)
      modifies this
      ensures var r := RunItems(old(Model()), items); ok == r.Ok? && (ok ==> Model() == r.value)
      decreases items
    {
      if items.NoItems? { return true; }
      ok := ItemActions(items.init);
      if !ok { return; }
      var id := ValueActions(items.v);
      if id.None? { return false; }
      ok := AddBack(id.value);
    }

    // ----------------------------------------------------------------- user contexts and comments

    /** The loop of `merge` in data.cc: the entries of one map go into another, and null ones go out. */
    method MergeFields(a: map<Word, nat>, b: map<Word, nat>) returns (fields: map<Word, nat>)
      ensures fields == MergedFields(store, a, b)
    {
      fields := a;
      var rest := b.Keys;
      while rest != {}
        invariant rest <= b.Keys
        invariant forall k :: k in fields <==> if k in b && k !in rest then !IsNull(store, b[k]) else k in a
        invariant forall k :: k in fields ==> fields[k] == if k in b && k !in rest then b[k] else a[k]
        decreases |rest|
      {
        var k :| k in rest;
        if !IsNull(store, b[k]) {
          fields := fields[k := b[k]];
        } else {
          fields := fields - {k};
        }
        rest := rest - {k};
      }
    }

    method PrepareUserContext(id: nat) returns (ok: bool)
      requires stack != []
      modifies `store
      ensures var r := UserContextStore(old(store), stack[|stack| - 1], id); ok == r.Ok? && (ok ==> store == r.value)
    {
      var top := stack[|stack| - 1];
      if top >= |store| || !store[top].MapNode? || id >= |store| || !store[id].MapNode? { return false; }
      if UserContextWord in store[top].fields {
        var before := store[top].fields[UserContextWord];
        if before >= |store| || !store[before].MapNode? { return false; }
        if |store[before].fields| != 1 || CommentWord !in store[before].fields { return false; }
        ok := Set(id, CommentWord, store[before].fields[CommentWord]);
      }
      ok := true;
    }

    method HangContext(id: nat) returns (ok: bool)
      modifies this
      ensures var r := HangAndLeave(old(Model()), Ok(old(store)), id); ok == r.Ok? && (ok ==> Model() == r.value)
    {
      ok := SetBack(UserContextWord, id);
      if !ok { return; }
      ok := LeaveContext();
    }

    /** The end of the user-context rule, for the user context just built. */
    method FinishUserContext(id: nat) returns (ok: bool)
      requires stack != []
      modifies this
      ensures var r := HangAndLeave(old(Model()), UserContextStore(old(store), old(Top(Model())), id), id);
              ok == r.Ok? && (ok ==> Model() == r.value)
    {
      ok := PrepareUserContext(id);
      if ok { ok := HangContext(id); }
    }

    method UserContextActions(es: Entries) returns (ok: bool)
      modifies this
      ensures var r := RunUserContext(old(Model()), es); ok == r.Ok? && (ok ==> Model() == r.value)
    {
      EnterContext(NoKeywords);
      var id := ValueActions(Object(es));
      if id.None? || stack == [] { return false; }
      ok := FinishUserContext(id.value);
    }

    method PrepareComment(id: nat) returns (ok: bool)
      requires stack != []
      modifies `store
      ensures var r := CommentStore(old(store), stack[|stack| - 1], id); ok == r.Ok? && (ok ==> store == r.value)
    {
      var top := stack[|stack| - 1];
      if top >= |store| || !store[top].MapNode? || id >= |store| || !store[id].MapNode? { return false; }
      if UserContextWord in store[top].fields {
        var before := store[top].fields[UserContextWord];
        if before >= |store| || !store[before].MapNode? { return false; }
        if CommentWord in store[before].fields { return false; }
        var merged := MergeFields(store[id].fields, store[before].fields);
        store := store[id := MapNode(merged)];
      }
      ok := true;
    }

    method LoneComment(text: Word) returns (id: nat)
      modifies `store
      ensures id == |old(store)| && store == CommentNodes(old(store), text)
    {
      id := New(MapNode(map[]));
      var c := New(StrNode(text));
      store := store[id := MapNode(map[CommentWord := c])];
    }

    /** The end of the comment rule, for the lone comment just built. */
    method FinishComment(id: nat) returns (ok: bool)
      requires stack != []
      modifies this
      ensures var r := HangAndLeave(old(Model()), CommentStore(old(store), old(Top(Model())), id), id);
              ok == r.Ok? && (ok ==> Model() == r.value)
    {
      ok := PrepareComment(id);
      if ok { ok := HangContext(id); }
    }

    method CommentActions(text: Word) returns (ok: bool)
      modifies this
      ensures var r := RunComment(old(Model()), text); ok == r.Ok? && (ok ==> Model() == r.value)
    {
      EnterContext(NoKeywords);
      if Recognised(ctx, text) || stack == [] { return false; }
      var id := LoneComment(text);
      ok := FinishComment(id);
    }

    // ----------------------------------------------------------------- the Control-agent grammar

    method LeafActions(key: Word, v: Value, plain: bool) returns (ok: bool)
      modifies this
      ensures var r := RunLeaf(old(Model()), key, v, plain); ok == r.Ok? && (ok ==> Model() == r.value)
    {
      if plain { EnterContext(NoKeywords); }
      var id := ValueActions(v);
      if id.None? { return false; }
      ok := SetBack(key, id.value);
      if ok && plain { ok := LeaveContext(); }
    }

    method SocketTypeActions() returns (ok: bool)
      modifies this
      ensures var r := RunSocketType(old(Model())); ok == r.Ok? && (ok ==> Model() == r.value)
    {
      EnterContext(SocketType);
      if !Recognised(ctx, Unix) { return false; }
      var id := New(StrNode(Unix));
      ok := SetBack(SocketTypeWord, id);
      if ok { ok := LeaveContext(); }
    }

    method OpenNested(key: Word, n: Node) returns (ok: bool)
      modifies this
      ensures var r := Open(old(Model()), key, n); ok == r.Ok? && (ok ==> Model() == r.value)
    {
      var id := New(n);
      ok := SetBack(key, id);
      if !ok { return; }
      PushBack(id);
      EnterContext(Inner(key));
    }

    method CloseNested() returns (ok: bool)
      modifies this
      ensures var r := Close(old(Model())); ok == r.Ok? && (ok ==> Model() == r.value)
    {
      var id := PopBack();
      if id.None? { return false; }
      ok := LeaveContext();
    }

    method ParamActions(x: Param) returns (ok: bool)
      modifies this
      ensures var r := RunParam(old(Model()), x); ok == r.Ok? && (ok ==> Model() == r.value)
      decreases x
    {
      if x.Unknown? || !Recognised(ctx, KeyOf(x)) { return false; }
      if x.Leaf? {
        ok := LeafActions(x.key, x.v, x.plain);
      } else if x.SocketTypeIsUnix? {
        ok := SocketTypeActions();
      } else if x.UserContext? {
        ok := UserContextActions(x.entries);
      } else if x.Comment? {
        ok := CommentActions(x.text);
      } else if x.NestedMap? {
        ok := OpenNested(x.key, MapNode(map[]));
        if !ok { return; }
        ok := ParamListActions(x.body);
        if !ok { return; }
        ok := CloseNested();
      } else {
        ok := OpenNested(x.key, ListNode([]));
        if !ok { return; }
        ok := MapListActions(x.maps);
        if !ok { return; }
        ok := CloseNested();
      }
    }

    method ParamListActions(xs: Params) returns (ok: bool)
      modifies this
      ensures var r := RunParams(old(Model()), xs); ok == r.Ok? && (ok ==> Model() == r.value)
      decreases xs
    {
      if xs.NoParams? { return true; }
      ok := ParamListActions(xs.init);
      if !ok { return; }
      ok := ParamActions(xs.x);
    }

    method ItemOpen() returns (ok: bool)
      modifies this
      ensures var r := OpenItem(old(Model())); ok == r.Ok? && (ok ==> Model() == r.value)
    {
      var id := New(MapNode(map[]));
      ok := AddBack(id);
      if ok { PushBack(id); }
    }

    method MapListActions(maps: Maps) returns (ok: bool)
      modifies this
      ensures var r := RunMaps(old(Model()), maps); ok == r.Ok? && (ok ==> Model() == r.value)
      decreases maps
    {
      if maps.NoMaps? { return true; }
      ok := MapListActions(maps.init);
      if !ok { return; }
      ok := ItemOpen();
      if !ok { return; }
      ok := ParamListActions(maps.body);
      if !ok { return; }
      var id := PopBack();
      ok := id.Some?;
    }

    method StartActions(x: Start) returns (ok: bool)
      modifies this
      ensures var r := RunStart(old(Model()), x); ok == r.Ok? && (ok ==> Model() == r.value)
    {
      if x.StartJson? {
        ctx := NoKeywords;
        var id := ValueActions(x.v);
        if id.None? { return false; }
        PushBack(id.value);
        ok := true;
      } else {
        ctx := if x.StartAgent? then Config else Agent;
        var id := New(MapNode(map[]));
        PushBack(id);
        ok := ParamListActions(if x.StartAgent? then x.body else x.inside);
      }
    }

    /** A parse: the element it returns stands for what the derivation denotes. */
    method Parse(x: Start) returns (r: Option<nat>)
      requires StartAllowed(x)
      modifies this
      ensures r.Some? <==> old(stack) == [] && DenoteStart(x).Ok?
      ensures r.Some? ==> Denotes(store, |old(store)|, |store|, r.value, DenoteStart(x).value) && cstack == old(cstack)
    {
      ParseCommonAgrees(Model(), x);
      var ok := StartActions(x);
      if !ok || |stack| != 1 { return None; }
      r := Some(stack[0]);
    }
  }
}
