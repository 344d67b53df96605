/** `process`: the left-to-right replay of the working string against a
    fresh execution scope, with the built-in save/restore bracket handlers. */
module Execution {
  import opened Common
  import opened LinkedStack
  import opened Brackets
  import opened LSystem

  /** A saved turtle. The turtle is an opaque value of type `T`; a Dafny value
      never changes after it is made, so the copy the program takes on save
      and on restore is the value itself. */
  datatype StackEntry<T> = StackEntry(turtle: T)

  /** `LSystemExecutionScope`; `payload` is the caller's scope object. */
  datatype Scope<T, P> = Scope(
    itr: nat,
    depth: int,
    maxDepth: Option<nat>,
    rootString: string,
    stack: Stack<StackEntry<T>>,
    turtle: T,
    payload: P)

  /** A client handler reads the scope and yields a new turtle and payload,
      or fails by throwing. */
  type ClientRun<!A, !T, !P> = (Scope<T, P>, A) -> Result<(T, P)>

  /** One handler invocation: the string index and the handler run there. */
  datatype Call<A> = Call(at: nat, handler: Handler<A>)

  /** The scope `process` starts from: index 0, depth 1, an empty stack and
      a fresh turtle. */
  function FreshScope<T, P>(root: string, maxDepth: Option<nat>, turtle0: T, payload: P): (sc: Scope<T, P>)
    ensures sc.itr == 0 && sc.depth == 1 && IsEmpty(sc.stack) && sc.turtle == turtle0
  {
    Scope(0, 1, maxDepth, root, New(), turtle0, payload)
  }

  /** `opSaveState`: pushes a copy of the current turtle. */
  function OpSaveState<T, P>(sc: Scope<T, P>): (r: Scope<T, P>)
    ensures !IsEmpty(r.stack) && Peek(r.stack) == StackEntry(sc.turtle)
    ensures Pop(r.stack).1 == sc.stack
    ensures r.(stack := sc.stack) == sc
  {
    sc.(stack := Push(sc.stack, StackEntry(sc.turtle)))
  }

  /** `opRestoreState`: pops and makes the saved copy the current turtle.
      Popping an empty stack reads through an undefined `top` and throws. */
  function OpRestoreState<T, P>(sc: Scope<T, P>): (r: Result<Scope<T, P>>)
    ensures IsEmpty(sc.stack) <==> r.Failure?
    ensures r.Failure? ==> r.error == StackUnderflow(sc.itr)
    ensures r.Success? ==> r.value.turtle == Peek(sc.stack).turtle && r.value.stack == Pop(sc.stack).1
    ensures r.Success? ==> r.value.(turtle := sc.turtle, stack := sc.stack) == sc
  {
    if IsEmpty(sc.stack) then Failure(StackUnderflow(sc.itr))
    else
      var (entry, rest) := Pop(sc.stack);
      Success(sc.(stack := rest, turtle := entry.turtle))
  }

  /** Restoring right after saving gives back the scope as it was. */
  lemma SaveThenRestore<T, P>(sc: Scope<T, P>)
    ensures OpRestoreState(OpSaveState(sc)) == Success(sc)
  {
  }

  /** Runs one handler. `[` saves and increments `depth`; `]` restores and
      decrements it; a client handler changes only turtle and payload. */
  function Invoke<A, T, P>(sc: Scope<T, P>, h: Handler<A>, run: ClientRun<A, T, P>): (r: Result<Scope<T, P>>)
    ensures r.Success? ==>
      r.value.itr == sc.itr && r.value.rootString == sc.rootString && r.value.maxDepth == sc.maxDepth
    ensures h == SaveState ==> r == Success(OpSaveState(sc).(depth := sc.depth + 1))
    ensures h == RestoreState ==>
      (r.Success? <==> !IsEmpty(sc.stack))
      && (r.Success? ==> r.value == OpRestoreState(sc).value.(depth := sc.depth - 1))
    ensures h.Client? && r.Success? ==> r.value.stack == sc.stack && r.value.depth == sc.depth
  {
    match h
    case SaveState => Success(OpSaveState(sc).(depth := sc.depth + 1))
    case RestoreState =>
      var sc' :- OpRestoreState(sc);
      Success(sc'.(depth := sc'.depth - 1))
    case Client(a) =>
      var tp :- run(sc, a);
      Success(sc.(turtle := tp.0, payload := tp.1))
  }

  /** The handler `process` runs for `c`: none when `c` is unregistered or
      registered without a handler. */
  function HandlerAt<A>(symbols: map<char, Symbol<A>>, c: char): Option<Handler<A>> {
    if c in symbols then symbols[c].handler else None
  }

  /** Reference list of the calls a replay of `s[i..]` makes: one per
      symbol that has a handler, in string order. */
  function Dispatched<A>(symbols: map<char, Symbol<A>>, s: string, i: nat): seq<Call<A>>
    requires i <= |s|
    decreases |s| - i
  {
    if i == |s| then []
    else match HandlerAt(symbols, s[i])
      case None => Dispatched(symbols, s, i + 1)
      case Some(h) => [Call(i, h)] + Dispatched(symbols, s, i + 1)
  }

  /** The replay loop from `sc.itr` to the end of the string. */
  function Run<A, T, P>(symbols: map<char, Symbol<A>>, run: ClientRun<A, T, P>, sc: Scope<T, P>)
    : (r: Result<(Scope<T, P>, seq<Call<A>>)>)
    requires sc.itr <= |sc.rootString|
    ensures r.Success? ==> r.value.1 == Dispatched(symbols, sc.rootString, sc.itr)
    ensures r.Success? ==>
      r.value.0.itr == |sc.rootString| && r.value.0.rootString == sc.rootString
      && r.value.0.maxDepth == sc.maxDepth
    decreases |sc.rootString| - sc.itr
  {
    if sc.itr == |sc.rootString| then Success((sc, []))
    else match HandlerAt(symbols, sc.rootString[sc.itr])
      case None => Run(symbols, run, sc.(itr := sc.itr + 1))
      case Some(h) =>
        var sc' :- Invoke(sc, h, run);
        var rest :- Run(symbols, run, sc'.(itr := sc.itr + 1));
        Success((rest.0, [Call(sc.itr, h)] + rest.1))
  }

  /** A symbol whose handler succeeds: the replay goes on from the scope the
      handler leaves, one index further. */
  lemma RunHandled<A, T, P>(symbols: map<char, Symbol<A>>, run: ClientRun<A, T, P>, sc: Scope<T, P>,
                            h: Handler<A>, sc': Scope<T, P>)
    requires sc.itr < |sc.rootString| && HandlerAt(symbols, sc.rootString[sc.itr]) == Some(h)
    requires Invoke(sc, h, run) == Success(sc')
    ensures var r, r' := Run(symbols, run, sc), Run(symbols, run, sc'.(itr := sc.itr + 1));
      r.Success? == r'.Success? && (r.Success? ==> r.value.0 == r'.value.0)
      && (r.Failure? ==> r.error == r'.error)
  {
  }

  /** A symbol whose handler throws ends the replay with that error. */
  lemma RunHandlerFails<A, T, P>(symbols: map<char, Symbol<A>>, run: ClientRun<A, T, P>, sc: Scope<T, P>, h: Handler<A>)
    requires sc.itr < |sc.rootString| && HandlerAt(symbols, sc.rootString[sc.itr]) == Some(h)
    requires Invoke(sc, h, run).Failure?
    ensures Run(symbols, run, sc) == Failure(Invoke(sc, h, run).error)
  {
  }

  /** A symbol without a handler is passed over. */
  lemma RunSkipped<A, T, P>(symbols: map<char, Symbol<A>>, run: ClientRun<A, T, P>, sc: Scope<T, P>)
    requires sc.itr < |sc.rootString| && HandlerAt(symbols, sc.rootString[sc.itr]).None?
    ensures Run(symbols, run, sc) == Run(symbols, run, sc.(itr := sc.itr + 1))
  {
  }

  /** `process(scope)`: a fresh scope over the working string, replayed
      symbol by symbol. Reading the length of a missing string throws. */
  function Process<A, T, P>(g: Grammar<A>, payload: P, turtle0: T, run: ClientRun<A, T, P>)
    : (r: Result<(Scope<T, P>, seq<Call<A>>)>)
    ensures g.rootString.None? ==> r == Failure(MissingAxiom)
    ensures r.Success? ==> r.value.1 == Dispatched(g.symbols, g.rootString.value, 0)
    ensures r.Success? ==> r.value.0.rootString == g.rootString.value && r.value.0.maxDepth == g.maxDepth
  {
    match g.rootString
    case None => Failure(MissingAxiom)
    case Some(s) => Run(g.symbols, run, FreshScope(s, g.maxDepth, turtle0, payload))
  }
}
