/** Nested includes in the Control-agent lexer: the stacks of agent_lexer.cc (buffers, open files,
    file names and locations), what an include pushes, what the end of a file pops, and what the end
    of a parse closes.

    File handles and flex buffers are numbered in the order in which they come into being, and two
    logs record what is closed and deleted, so that "exactly once" is a statement about the logs.
 */
module IncludeStack {
  import opened Text

  /** A place in the current file; the file name itself is read through the lexer's own field. */
  datatype Position = Position(line: nat, column: nat)

  const START := Position(1, 1)

  /** The include limit: an include is refused when this many buffers are already saved. */
  const LIMIT: nat := 11

  datatype Lexer = Lexer(
    file: string, files: seq<string>,
    loc: Position, locs: seq<Position>,
    current: Option<nat>, states: seq<nat>,
    sfile: Option<nat>, sfiles: seq<nat>,
    handles: nat, closed: seq<nat>,
    created: nat, deleted: seq<nat>)

  /** What the scanner meets: text up to some position, an include (whose file may fail to open and
      whose buffer may fail to be created), the end of a file. */
  datatype Event =
    | Scan(p: Position)
    | Include(name: string, opens: bool, buffers: bool)
    | EndOfFile

  /** What a parse starts from. */
  datatype Base = OfString(buffers: bool) | OfFile(name: string, opens: bool, buffers: bool)

  datatype Outcome = Outcome(state: Lexer, ok: bool)

  function Held(o: Option<nat>): seq<nat> {
    if o.Some? then [o.value] else []
  }

  function Begin(s: Lexer, base: Base): Outcome {
    match base
    case OfString(buffers) =>
      var t := s.(file := "<string>", sfile := None, loc := START);
      if buffers then Outcome(t.(current := Some(s.created), created := s.created + 1), true)
      else Outcome(t, false)
    case OfFile(name, opens, buffers) =>
      if !opens then Outcome(s, false)
      else
        var t := s.(file := name, sfile := Some(s.handles), handles := s.handles + 1, loc := START);
        if buffers then Outcome(t.(current := Some(s.created), created := s.created + 1), true)
        else Outcome(t, false)
  }

  function IncludeFile(s: Lexer, name: string, opens: bool, buffers: bool): Outcome {
    if |s.states| > 10 || !opens then Outcome(s, false)
    else
      var t := s.(sfiles := s.sfiles + Held(s.sfile), sfile := Some(s.handles), handles := s.handles + 1,
                  states := s.states + Held(s.current));
      if !buffers then Outcome(t, false)
      else
        Outcome(t.(current := Some(s.created), created := s.created + 1,
                   files := s.files + [s.file], file := name, locs := s.locs + [s.loc], loc := START), true)
  }

  /** The end of a file: the parse is over when nothing is saved, otherwise the includer resumes. */
  function EndFile(s: Lexer): Lexer
    requires Shape(s)
  {
    if s.states == [] then s
    else
      var n := |s.states|;
      var t := s.(loc := s.locs[|s.locs| - 1], locs := s.locs[..|s.locs| - 1],
                  file := s.files[|s.files| - 1], files := s.files[..|s.files| - 1],
                  closed := s.closed + Held(s.sfile),
                  deleted := s.deleted + Held(s.current),
                  current := Some(s.states[n - 1]), states := s.states[..n - 1]);
      if s.sfiles == [] then t.(sfile := None)
      else t.(sfile := Some(s.sfiles[|s.sfiles| - 1]), sfiles := s.sfiles[..|s.sfiles| - 1])
  }

  lemma EndFileKeepsShape(s: Lexer)
    requires Shape(s)
    ensures Shape(EndFile(s))
  {
  }

  function Reversed(s: seq<nat>): seq<nat> {
    if s == [] then [] else [s[|s| - 1]] + Reversed(s[..|s| - 1])
  }

  /** The end of a parse: everything open is closed, everything saved is deleted. The stacks of file
      names and locations are left as they are. */
  function End(s: Lexer): Lexer {
    s.(sfile := None, sfiles := [], closed := s.closed + Held(s.sfile) + Reversed(s.sfiles),
       current := None, states := [], deleted := s.deleted + Held(s.current) + Reversed(s.states))
  }

  function Step(s: Lexer, e: Event): Outcome
    requires Shape(s)
  {
    match e
    case Scan(p) => Outcome(s.(loc := p), true)
    case Include(name, opens, buffers) => IncludeFile(s, name, opens, buffers)
    case EndOfFile => Outcome(EndFile(s), true)
  }

  /** The scanner runs until an event throws. */
  function Run(s: Lexer, events: seq<Event>): (r: Outcome)
    requires Shape(s)
    ensures r.ok ==> Shape(r.state)
    decreases |events|
  {
    if events == [] then Outcome(s, true)
    else
      var r := Step(s, events[0]);
      if r.ok then Run(r.state, events[1..]) else r
  }

  /** One parse: begin, scan, and, unless it could not even begin, end. */
  function Parse(s: Lexer, base: Base, events: seq<Event>): Lexer
    requires Idle(s)
  {
    var r := Begin(s, base);
    if r.ok then End(Run(r.state, events).state) else r.state
  }

  // ----------------------------------------------------------------- invariants

  /** A scanner has a current buffer, as many saved names as saved locations, at least one of each
      per saved buffer, and never more saved buffers than the limit. */
  predicate Shape(s: Lexer) {
    && s.current.Some?
    && |s.files| == |s.locs| >= |s.states|
    && |s.states| <= LIMIT
    && (s.sfile.None? ==> s.sfiles == [])
  }

  /** Between parses. */
  predicate Idle(s: Lexer) {
    s.current.None? && s.states == [] && s.sfile.None? && s.sfiles == [] && |s.files| == |s.locs|
  }

  /** How often `x` occurs in a log. */
  function Times(s: seq<nat>, x: nat): nat {
    if s == [] then 0 else Times(s[..|s| - 1], x) + if s[|s| - 1] == x then 1 else 0
  }

  lemma {:induction false} TimesConcat(a: seq<nat>, b: seq<nat>, x: nat)
    ensures Times(a + b, x) == Times(a, x) + Times(b, x)
    decreases |b|
  {
    if b == [] {
      assert a + b == a;
    } else {
      assert (a + b)[..|a + b| - 1] == a + b[..|b| - 1];
      TimesConcat(a, b[..|b| - 1], x);
    }
  }

  lemma {:induction false} TimesReversed(s: seq<nat>, x: nat)
    ensures Times(Reversed(s), x) == Times(s, x)
    decreases |s|
  {
    if s != [] {
      TimesReversed(s[..|s| - 1], x);
      TimesConcat([s[|s| - 1]], Reversed(s[..|s| - 1]), x);
    }
  }

  /** The ledger of `x`, of `n` things handed out in order: once it is handed out it is in the log or
      held or saved, in one place and once. */
  predicate Balanced(log: seq<nat>, held: Option<nat>, saved: seq<nat>, n: nat, x: nat) {
    Times(log, x) + Times(Held(held), x) + Times(saved, x) == if x < n then 1 else 0
  }

  predicate FileBalanced(s: Lexer, x: nat) {
    Balanced(s.closed, s.sfile, s.sfiles, s.handles, x)
  }

  predicate BufferBalanced(s: Lexer, x: nat) {
    Balanced(s.deleted, s.current, s.states, s.created, x)
  }

  /** Every file opened so far is closed or held, once; every buffer is deleted or held, once. */
  ghost predicate AllBalanced(s: Lexer) {
    forall x: nat :: FileBalanced(s, x) && BufferBalanced(s, x)
  }

  /** Each of the first `n` numbers occurs in the log, and once. */
  ghost predicate EachOnce(log: seq<nat>, n: nat) {
    forall x: nat :: Times(log, x) == if x < n then 1 else 0
  }

  lemma PushBalanced(log: seq<nat>, held: Option<nat>, saved: seq<nat>, n: nat, x: nat)
    requires Balanced(log, held, saved, n, x)
    ensures Balanced(log, Some(n), saved + Held(held), n + 1, x)
  {
    TimesConcat(saved, Held(held), x);
  }

  lemma PopBalanced(log: seq<nat>, held: Option<nat>, saved: seq<nat>, n: nat, x: nat)
    requires Balanced(log, held, saved, n, x)
    ensures saved == [] ==> Balanced(log + Held(held), None, saved, n, x)
    ensures saved != [] ==> Balanced(log + Held(held), Some(saved[|saved| - 1]), saved[..|saved| - 1], n, x)
  {
    TimesConcat(log, Held(held), x);
  }

  lemma EndTimes(log: seq<nat>, held: Option<nat>, saved: seq<nat>, x: nat)
    ensures Times(log + Held(held) + Reversed(saved), x) == Times(log, x) + Times(Held(held), x) + Times(saved, x)
  {
    TimesConcat(log + Held(held), Reversed(saved), x);
    TimesConcat(log, Held(held), x);
    TimesReversed(saved, x);
  }

  lemma StepFiles(s: Lexer, e: Event, x: nat)
    requires Shape(s) && FileBalanced(s, x)
    ensures FileBalanced(Step(s, e).state, x)
  {
    PushBalanced(s.closed, s.sfile, s.sfiles, s.handles, x);
    PopBalanced(s.closed, s.sfile, s.sfiles, s.handles, x);
  }

  /** Whether an event throws after its file opened, for want of a buffer. */
  predicate NoBuffer(s: Lexer, e: Event) {
    e.Include? && |s.states| <= 10 && e.opens && !e.buffers
  }

  lemma StepBuffers(s: Lexer, e: Event, x: nat)
    requires Shape(s) && BufferBalanced(s, x)
    ensures !NoBuffer(s, e) ==> BufferBalanced(Step(s, e).state, x)
    ensures NoBuffer(s, e) ==> Doubled(Step(s, e).state, x)
  {
    if e.Include? {
      PushBalanced(s.deleted, s.current, s.states, s.created, x);
      TimesConcat(s.states, Held(s.current), x);
    } else if e.EndOfFile? {
      PopBalanced(s.deleted, s.current, s.states, s.created, x);
    }
  }

  /** The state an include without a buffer leaves: the includer's buffer is both current and saved. */
  predicate Doubled(s: Lexer, x: nat) {
    && s.current.Some? && s.states != [] && s.states[|s.states| - 1] == s.current.value
    && Times(s.deleted, x) + Times(s.states, x) == if x < s.created then 1 else 0
  }

  lemma {:induction false} RunFiles(s: Lexer, events: seq<Event>, x: nat)
    requires Shape(s) && FileBalanced(s, x)
    ensures FileBalanced(Run(s, events).state, x)
    decreases |events|
  {
    if events != [] {
      StepFiles(s, events[0], x);
      var r := Step(s, events[0]);
      if r.ok { RunFiles(r.state, events[1..], x); }
    }
  }

  /** Whether a run ends in an include that opened its file and got no buffer. */
  predicate LosesBuffer(s: Lexer, events: seq<Event>)
    requires Shape(s)
    decreases |events|
  {
    events != [] &&
    var r := Step(s, events[0]);
    if r.ok then LosesBuffer(r.state, events[1..]) else NoBuffer(s, events[0])
  }

  lemma {:induction false} RunBuffers(s: Lexer, events: seq<Event>, x: nat)
    requires Shape(s) && BufferBalanced(s, x)
    ensures !LosesBuffer(s, events) ==> BufferBalanced(Run(s, events).state, x)
    ensures LosesBuffer(s, events) ==> Doubled(Run(s, events).state, x)
    decreases |events|
  {
    if events != [] {
      StepBuffers(s, events[0], x);
      var r := Step(s, events[0]);
      if r.ok { RunBuffers(r.state, events[1..], x); }
    }
  }

  // ----------------------------------------------------------------- whole parses

  lemma BeginBalanced(s: Lexer, base: Base, x: nat)
    requires Idle(s) && FileBalanced(s, x) && BufferBalanced(s, x) && Begin(s, base).ok
    ensures FileBalanced(Begin(s, base).state, x) && BufferBalanced(Begin(s, base).state, x)
  {
    PushBalanced(s.closed, s.sfile, s.sfiles, s.handles, x);
    PushBalanced(s.deleted, s.current, s.states, s.created, x);
    assert s.sfiles + Held(s.sfile) == s.sfiles && s.states + Held(s.current) == s.states;
  }

  /** A file that opened and got no buffer for the parse that was to read it. */
  predicate NoBaseBuffer(base: Base) {
    base.OfFile? && base.opens && !base.buffers
  }

  /** After a parse, however it went, every file it opened is closed exactly once, except when the
      parse could not begin because its own file opened and got no buffer. */
  lemma ParseClosesFiles(s: Lexer, base: Base, events: seq<Event>)
    requires Idle(s) && AllBalanced(s)
    ensures var t := Parse(s, base, events);
            EachOnce(t.closed, t.handles) <==> !NoBaseBuffer(base)
  {
    var t := Parse(s, base, events);
    forall x: nat | !NoBaseBuffer(base) ensures Times(t.closed, x) == if x < t.handles then 1 else 0 {
      assert FileBalanced(s, x) && BufferBalanced(s, x);
      ParseClosesFile(s, base, events, x);
    }
    if NoBaseBuffer(base) {
      assert FileBalanced(s, s.handles);
      assert Times(t.closed, s.handles) == 0;
    }
  }

  lemma ParseClosesFile(s: Lexer, base: Base, events: seq<Event>, x: nat)
    requires Idle(s) && FileBalanced(s, x) && BufferBalanced(s, x) && !NoBaseBuffer(base)
    ensures var t := Parse(s, base, events); Times(t.closed, x) == if x < t.handles then 1 else 0
  {
    var r := Begin(s, base);
    if r.ok {
      BeginBalanced(s, base, x);
      RunFiles(r.state, events, x);
      var u := Run(r.state, events).state;
      EndTimes(u.closed, u.sfile, u.sfiles, x);
    }
  }

  /** Whether a parse dies in an include that opened its file and got no buffer. */
  predicate ParseLosesBuffer(s: Lexer, base: Base, events: seq<Event>)
    requires Idle(s)
  {
    Begin(s, base).ok && LosesBuffer(Begin(s, base).state, events)
  }

  /** After a parse every buffer is deleted exactly once, unless an include opened its file and got
      no buffer: then the includer's buffer, both current and saved, is deleted twice. */
  lemma ParseDeletesBuffers(s: Lexer, base: Base, events: seq<Event>)
    requires Idle(s) && AllBalanced(s)
    ensures var t := Parse(s, base, events);
            EachOnce(t.deleted, t.created) <==> !ParseLosesBuffer(s, base, events)
  {
    var t := Parse(s, base, events);
    forall x: nat | !ParseLosesBuffer(s, base, events)
      ensures Times(t.deleted, x) == if x < t.created then 1 else 0
    {
      assert FileBalanced(s, x) && BufferBalanced(s, x);
      ParseDeletesBuffer(s, base, events, x);
    }
    if ParseLosesBuffer(s, base, events) {
      var x := DeletedTwice(s, base, events);
      assert Times(t.deleted, x) == 2;
    }
  }

  lemma ParseDeletesBuffer(s: Lexer, base: Base, events: seq<Event>, x: nat)
    requires Idle(s) && FileBalanced(s, x) && BufferBalanced(s, x) && !ParseLosesBuffer(s, base, events)
    ensures var t := Parse(s, base, events); Times(t.deleted, x) == if x < t.created then 1 else 0
  {
    var r := Begin(s, base);
    if r.ok {
      BeginBalanced(s, base, x);
      RunBuffers(r.state, events, x);
      var u := Run(r.state, events).state;
      EndTimes(u.deleted, u.current, u.states, x);
    }
  }

  lemma DeletedTwice(s: Lexer, base: Base, events: seq<Event>) returns (x: nat)
    requires Idle(s) && AllBalanced(s) && ParseLosesBuffer(s, base, events)
    ensures Times(Parse(s, base, events).deleted, x) == 2
  {
    var r := Begin(s, base);
    var u := Run(r.state, events).state;
    assert FileBalanced(s, 0) && BufferBalanced(s, 0);
    BeginBalanced(s, base, 0);
    RunBuffers(r.state, events, 0);
    x := u.current.value;
    assert FileBalanced(s, x) && BufferBalanced(s, x);
    BeginBalanced(s, base, x);
    RunBuffers(r.state, events, x);
    EndTimes(u.deleted, u.current, u.states, x);
  }

  /** The stacks of names, locations and buffers rise and fall together: in a lexer that starts with
      equal heights they stay equal, also where a run stops, unless it stops for want of a buffer. */
  lemma {:induction false} RunKeepsNames(s: Lexer, events: seq<Event>)
    requires Shape(s)
    ensures var t := Run(s, events).state;
            && |t.files| == |t.locs|
            && (!LosesBuffer(s, events) ==> |t.files| - |t.states| == |s.files| - |s.states| && |t.states| <= LIMIT)
    decreases |events|
  {
    if events != [] {
      var r := Step(s, events[0]);
      if r.ok { RunKeepsNames(r.state, events[1..]); }
    }
  }

  datatype Session = Session(base: Base, events: seq<Event>)

  /** A session in which every file that opened got its buffer. */
  predicate Sound(s: Lexer, x: Session)
    requires Idle(s)
  {
    !NoBaseBuffer(x.base) && !ParseLosesBuffer(s, x.base, x.events)
  }

  /** A sound parse leaves the lexer idle, so that the same object can parse again. */
  lemma ParseLeavesIdle(s: Lexer, x: Session)
    requires Idle(s) && Sound(s, x)
    ensures Idle(Parse(s, x.base, x.events))
  {
    if Begin(s, x.base).ok {
      RunKeepsNames(Begin(s, x.base).state, x.events);
    }
  }

  /** Between parses, a ledger is balanced when everything is in the log. */
  lemma IdleBalanced(s: Lexer)
    requires Idle(s)
    ensures AllBalanced(s) <==> EachOnce(s.closed, s.handles) && EachOnce(s.deleted, s.created)
  {
    if AllBalanced(s) {
      forall x: nat
        ensures Times(s.closed, x) == if x < s.handles then 1 else 0
        ensures Times(s.deleted, x) == if x < s.created then 1 else 0
      {
        assert FileBalanced(s, x) && BufferBalanced(s, x);
      }
    }
  }

  /** The state after any number of parses by one object. */
  ghost predicate Sessions(s: Lexer, xs: seq<Session>, t: Lexer)
    decreases |xs|
  {
    if xs == [] then t == s
    else Idle(s) && Sound(s, xs[0]) && Sessions(Parse(s, xs[0].base, xs[0].events), xs[1..], t)
  }

  /** Over any number of parses every file is closed once and every buffer deleted once. */
  lemma {:induction false} SessionsBalance(s: Lexer, xs: seq<Session>, t: Lexer)
    requires Idle(s) && AllBalanced(s) && Sessions(s, xs, t)
    ensures Idle(t) && EachOnce(t.closed, t.handles) && EachOnce(t.deleted, t.created)
    decreases |xs|
  {
    if xs == [] {
      IdleBalanced(s);
    } else {
      var u := Parse(s, xs[0].base, xs[0].events);
      ParseClosesFiles(s, xs[0].base, xs[0].events);
      ParseDeletesBuffers(s, xs[0].base, xs[0].events);
      ParseLeavesIdle(s, xs[0]);
      IdleBalanced(u);
      SessionsBalance(u, xs[1..], t);
    }
  }

  // ----------------------------------------------------------------- nesting

  /** What a file holds: text, and includes of other files whose contents are again such a script. */
  datatype Script = Done | Text(p: Position, rest: Script) | Nested(name: string, body: Script, rest: Script)

  function Events(x: Script): seq<Event> {
    match x
    case Done => []
    case Text(p, rest) => [Scan(p)] + Events(rest)
    case Nested(name, body, rest) => [Include(name, true, true)] + Events(body) + [EndOfFile] + Events(rest)
  }

  /** How deep the includes of a script go. */
  function Depth(x: Script): nat {
    match x
    case Done => 0
    case Text(_, rest) => Depth(rest)
    case Nested(_, body, rest) => var b := Depth(body) + 1; var r := Depth(rest); if b > r then b else r
  }

  /** Where scanning a script from `p` ends: includes leave the position alone. */
  function Final(x: Script, p: Position): Position {
    match x
    case Done => p
    case Text(q, rest) => Final(rest, q)
    case Nested(_, _, rest) => Final(rest, p)
  }

  /** Everything the lexer restores after an include. */
  predicate SamePlace(s: Lexer, t: Lexer) {
    && t.file == s.file && t.files == s.files && t.locs == s.locs
    && t.current == s.current && t.states == s.states
    && t.sfile == s.sfile && t.sfiles == s.sfiles
  }

  lemma {:induction false} RunConcat(s: Lexer, a: seq<Event>, b: seq<Event>)
    requires Shape(s)
    ensures Run(s, a + b) == if Run(s, a).ok then Run(Run(s, a).state, b) else Run(s, a)
    decreases |a|
  {
    if a == [] {
      assert a + b == b;
    } else {
      assert (a + b)[0] == a[0] && (a + b)[1..] == a[1..] + b;
      var r := Step(s, a[0]);
      if r.ok { RunConcat(r.state, a[1..], b); }
    }
  }

  lemma RunOne(s: Lexer, e: Event, b: seq<Event>)
    requires Shape(s)
    ensures Run(s, [e] + b) == if Step(s, e).ok then Run(Step(s, e).state, b) else Step(s, e)
  {
    assert ([e] + b)[1..] == b;
  }

  /** An include, scanned back to the same place inside, is undone by the end of the included file:
      names, locations, buffers and files are all as before, and so is the position. */
  lemma {:induction false} EndUndoesInclude(s: Lexer, name: string, t: Lexer)
    requires Shape(s) && IncludeFile(s, name, true, true).ok
    requires Shape(t) && SamePlace(IncludeFile(s, name, true, true).state, t)
    ensures SamePlace(s, EndFile(t)) && EndFile(t).loc == s.loc
  {
    var u := IncludeFile(s, name, true, true).state;
    assert u.files[..|u.files| - 1] == s.files && u.locs[..|u.locs| - 1] == s.locs;
    assert u.states[..|u.states| - 1] == s.states;
    if s.sfile.Some? { assert u.sfiles[..|u.sfiles| - 1] == s.sfiles; }
  }

  /** An include is entered exactly when fewer buffers than the limit are saved, the file opens and its
      buffer can be made; then the named file is read from its start, with a handle and a buffer of its
      own. One that is too deep or does not open changes nothing. */
  lemma IncludeEnters(s: Lexer, name: string, opens: bool, buffers: bool)
    requires Shape(s)
    ensures var r := Step(s, Include(name, opens, buffers));
            && (r.ok <==> |s.states| < LIMIT && opens && buffers)
            && (r.ok ==> && r.state.file == name && r.state.loc == START
                         && r.state.sfile == Some(s.handles) && r.state.current == Some(s.created)
                         && Held(s.current) <= r.state.states[|s.states|..] && r.state.closed == s.closed)
            && (|s.states| >= LIMIT || !opens ==> r.state == s)
  {
    var r := Step(s, Include(name, opens, buffers));
    if r.ok { assert r.state.states[|s.states|..] == Held(s.current); }
  }

  lemma NestedEvents(name: string, body: Script, rest: Script)
    ensures Events(Nested(name, body, rest))
         == [Include(name, true, true)] + (Events(body) + ([EndOfFile] + Events(rest)))
  {
  }

  /** Scanning a script throws exactly when its includes go deeper than the limit allows; otherwise
      it restores every stack and ends at the position of its own last text. */
  lemma {:induction false} NestingRestores(s: Lexer, x: Script)
    requires Shape(s)
    ensures var r := Run(s, Events(x));
            (r.ok <==> |s.states| + Depth(x) <= LIMIT)
            && (r.ok ==> SamePlace(s, r.state) && r.state.loc == Final(x, s.loc))
    decreases x
  {
    match x
    case Done =>
    case Text(p, rest) =>
      RunOne(s, Scan(p), Events(rest));
      NestingRestores(s.(loc := p), rest);
    case Nested(name, body, rest) =>
      NestedEvents(name, body, rest);
      RunOne(s, Include(name, true, true), Events(body) + ([EndOfFile] + Events(rest)));
      var u := IncludeFile(s, name, true, true);
      if u.ok {
        NestingRestores(u.state, body);
        RunConcat(u.state, Events(body), [EndOfFile] + Events(rest));
        var b := Run(u.state, Events(body));
        if b.ok {
          EndUndoesInclude(s, name, b.state);
          RunOne(b.state, EndOfFile, Events(rest));
          NestingRestores(EndFile(b.state), rest);
        }
      }
  }

  /** A parse that fails inside an include leaves names and locations behind. */
  lemma LeavesNamesBehind(s: Lexer, name: string)
    requires Idle(s)
    ensures var t := Parse(s, OfString(true), [Include(name, true, true), Include(name, false, true)]);
            t.files == s.files + ["<string>"] && Idle(t)
  {
    var r := Begin(s, OfString(true)).state;
    RunOne(r, Include(name, true, true), [Include(name, false, true)]);
    assert [Include(name, true, true), Include(name, false, true)] == [Include(name, true, true)] + [Include(name, false, true)];
    RunOne(IncludeFile(r, name, true, true).state, Include(name, false, true), []);
    assert [Include(name, false, true)] == [Include(name, false, true)] + [];
  }

  /** The same lexer on top of names and locations that earlier parses left behind. */
  function Above(s: Lexer, names: seq<string>, positions: seq<Position>): Lexer {
    s.(files := names + s.files, locs := positions + s.locs)
  }

  lemma StepAbove(s: Lexer, e: Event, names: seq<string>, positions: seq<Position>)
    requires Shape(s) && |names| == |positions|
    ensures Shape(Above(s, names, positions))
    ensures Step(Above(s, names, positions), e) == Outcome(Above(Step(s, e).state, names, positions), Step(s, e).ok)
  {
    match e {
      case Scan(p) =>
      case Include(name, opens, buffers) =>
        assert names + (s.files + [s.file]) == (names + s.files) + [s.file];
        assert positions + (s.locs + [s.loc]) == (positions + s.locs) + [s.loc];
      case EndOfFile =>
        var t := Above(s, names, positions);
        if s.states != [] {
          assert t.files[..|t.files| - 1] == names + s.files[..|s.files| - 1];
          assert t.locs[..|t.locs| - 1] == positions + s.locs[..|s.locs| - 1];
        }
    }
  }

  lemma {:induction false} RunAbove(s: Lexer, events: seq<Event>, names: seq<string>, positions: seq<Position>)
    requires Shape(s) && |names| == |positions|
    ensures Shape(Above(s, names, positions))
    ensures Run(Above(s, names, positions), events) == Outcome(Above(Run(s, events).state, names, positions), Run(s, events).ok)
    decreases |events|
  {
    if events != [] {
      StepAbove(s, events[0], names, positions);
      var r := Step(s, events[0]);
      if r.ok { RunAbove(r.state, events[1..], names, positions); }
    }
  }

  /** No later parse sees what earlier ones left behind: it goes the same way, and differs at the end
      only in that the old names and locations are still underneath. */
  lemma LeftoversUnseen(s: Lexer, base: Base, events: seq<Event>, names: seq<string>, positions: seq<Position>)
    requires Idle(s) && |names| == |positions|
    ensures Idle(Above(s, names, positions))
    ensures Parse(Above(s, names, positions), base, events) == Above(Parse(s, base, events), names, positions)
  {
    var r := Begin(s, base);
    assert Begin(Above(s, names, positions), base) == Outcome(Above(r.state, names, positions), r.ok);
    if r.ok { RunAbove(r.state, events, names, positions); }
  }

  // ----------------------------------------------------------------- the object

  /** The lexer's half of the parser context, updated in place. */
  class ParserContext {
    var file: string
    var files: seq<string>
    var loc: Position
    var locs: seq<Position>
    var current: Option<nat>
    var states: seq<nat>
    var sfile: Option<nat>
    var sfiles: seq<nat>
    var handles: nat
    var closed: seq<nat>
    var created: nat
    var deleted: seq<nat>

    function Model(): Lexer
      reads this
    {
      Lexer(file, files, loc, locs, current, states, sfile, sfiles, handles, closed, created, deleted)
    }

    constructor ()
      ensures Idle(Model()) && AllBalanced(Model())
    {
      file, files, loc, locs := "", [], START, [];
      current, states, sfile, sfiles := None, [], None, [];
      handles, closed, created, deleted := 0, [], 0, [];
    }

    method ScanStringBegin(buffers: bool) returns (ok: bool)
      modifies this
      ensures Begin(old(Model()), OfString(buffers)) == Outcome(Model(), ok)
    {
      file := "<string>";
      sfile := None;
      loc := START;
      if !buffers { return false; }
      current := Some(created);
      created := created + 1;
      ok := true;
    }

    method ScanFileBegin(name: string, opens: bool, buffers: bool) returns (ok: bool)
      modifies this
      ensures Begin(old(Model()), OfFile(name, opens, buffers)) == Outcome(Model(), ok)
    {
      if !opens { return false; }
      file := name;
      sfile := Some(handles);
      handles := handles + 1;
      loc := START;
      if !buffers { return false; }
      current := Some(created);
      created := created + 1;
      ok := true;
    }

    method PushFile()
      modifies `sfile, `sfiles, `handles
      ensures sfiles == old(sfiles + Held(sfile)) && sfile == Some(old(handles)) && handles == old(handles) + 1
    {
      if sfile.Some? { sfiles := sfiles + [sfile.value]; }
      sfile := Some(handles);
      handles := handles + 1;
    }

    method PushNames(name: string)
      modifies `loc, `locs, `file, `files
      ensures files == old(files + [file]) && file == name
      ensures locs == old(locs + [loc]) && loc == START
    {
      files := files + [file];
      file := name;
      locs := locs + [loc];
      loc := START;
    }

    method Include(name: string, opens: bool, buffers: bool) returns (ok: bool)
      requires Shape(Model())
      modifies this
      ensures IncludeFile(old(Model()), name, opens, buffers) == Outcome(Model(), ok)
      ensures ok ==> Shape(Model())
    {
      if |states| > 10 { return false; }
      if !opens { return false; }
      PushFile();
      states := states + [current.value];
      if !buffers { return false; }
      current := Some(created);
      created := created + 1;
      PushNames(name);
      ok := true;
    }

    method PopNames()
      requires |files| == |locs| > 0
      modifies `loc, `locs, `file, `files
      ensures loc == old(locs[|locs| - 1]) && locs == old(locs[..|locs| - 1])
      ensures file == old(files[|files| - 1]) && files == old(files[..|files| - 1])
    {
      loc := locs[|locs| - 1];
      locs := locs[..|locs| - 1];
      file := files[|files| - 1];
      files := files[..|files| - 1];
    }

    method PopFile()
      modifies `sfile, `sfiles, `closed
      ensures closed == old(closed + Held(sfile))
      ensures old(sfiles) == [] ==> sfile == None && sfiles == []
      ensures old(sfiles) != [] ==> sfile == Some(old(sfiles[|sfiles| - 1])) && sfiles == old(sfiles[..|sfiles| - 1])
    {
      if sfile.Some? {
        closed := closed + [sfile.value];
        sfile := None;
      }
      if sfiles != [] {
        sfile := Some(sfiles[|sfiles| - 1]);
        sfiles := sfiles[..|sfiles| - 1];
      }
    }

    method PopBuffer()
      requires current.Some? && states != []
      modifies `current, `states, `deleted
      ensures deleted == old(deleted + Held(current))
      ensures current == Some(old(states[|states| - 1])) && states == old(states[..|states| - 1])
    {
      deleted := deleted + [current.value];
      current := Some(states[|states| - 1]);
      states := states[..|states| - 1];
    }

    /** The action at the end of a file; `done` when there is nothing to go back to. */
    method FileEnds() returns (done: bool)
      requires Shape(Model())
      modifies this
      ensures Model() == EndFile(old(Model()))
      ensures done <==> old(states) == []
    {
      if states == [] { return true; }
      PopNames();
      PopFile();
      PopBuffer();
      done := false;
    }

    method CloseSaved()
      modifies `sfiles, `closed
      ensures sfiles == [] && closed == old(closed) + Reversed(old(sfiles))
    {
      while sfiles != []
        invariant closed + Reversed(sfiles) == old(closed) + Reversed(old(sfiles))
        decreases |sfiles|
      {
        ghost var was := closed + Reversed(sfiles);
        closed := closed + [sfiles[|sfiles| - 1]];
        sfiles := sfiles[..|sfiles| - 1];
        assert was == closed + Reversed(sfiles);
      }
      assert closed + Reversed(sfiles) == closed;
    }

    method DeleteSaved()
      modifies `states, `deleted
      ensures states == [] && deleted == old(deleted) + Reversed(old(states))
    {
      while states != []
        invariant deleted + Reversed(states) == old(deleted) + Reversed(old(states))
        decreases |states|
      {
        ghost var was := deleted + Reversed(states);
        deleted := deleted + [states[|states| - 1]];
        states := states[..|states| - 1];
        assert was == deleted + Reversed(states);
      }
      assert deleted + Reversed(states) == deleted;
    }

    method CloseCurrent()
      modifies `sfile, `closed, `current, `deleted
      ensures sfile == None && closed == old(closed + Held(sfile))
      ensures current == None && deleted == old(deleted + Held(current))
    {
      if sfile.Some? { closed := closed + [sfile.value]; }
      sfile := None;
      if current.Some? { deleted := deleted + [current.value]; }
      current := None;
    }

    method ScanEnd()
      modifies this
      ensures Model() == End(old(Model()))
    {
      CloseCurrent();
      CloseSaved();
      DeleteSaved();
    }

    /** The scanner's part of a parse: events until one throws, then the end. */
    method Scan(events: seq<Event>) returns (ok: bool)
      requires Shape(Model())
      modifies this
      ensures Outcome(Model(), ok) == var r := Run(old(Model()), events); Outcome(End(r.state), r.ok)
    {
      var i := 0;
      ok := true;
      while i < |events| && ok
        invariant 0 <= i <= |events|
        invariant ok ==> Shape(Model()) && Run(old(Model()), events) == Run(Model(), events[i..])
        invariant !ok ==> Run(old(Model()), events) == Outcome(Model(), false)
      {
        ghost var s := Model();
        RunOne(s, events[i], events[i + 1..]);
        assert events[i..] == [events[i]] + events[i + 1..];
        match events[i] {
          case Scan(p) => loc := p;
          case Include(name, opens, buffers) => ok := Include(name, opens, buffers);
          case EndOfFile =>
            EndFileKeepsShape(s);
            var _ := FileEnds();
        }
        i := i + 1;
      }
      ScanEnd();
    }
  }
}
