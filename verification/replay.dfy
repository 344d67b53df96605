/** What a replay guarantees: which handlers run, and the save/restore
    discipline of the bracket handlers. */
module Replay {
  import opened Common
  import opened LinkedStack
  import opened Brackets
  import opened LSystem
  import opened Execution

  /** `Dispatched` lists each symbol that has a handler exactly once, in
      string order, and nothing else. */
  lemma DispatchedExactlyOnce<A>(symbols: map<char, Symbol<A>>, s: string, i: nat)
    requires i <= |s|
    ensures forall k :: 0 <= k < |Dispatched(symbols, s, i)| ==>
      var call := Dispatched(symbols, s, i)[k];
      i <= call.at < |s| && HandlerAt(symbols, s[call.at]) == Some(call.handler)
    ensures forall k, m :: 0 <= k < m < |Dispatched(symbols, s, i)| ==>
      Dispatched(symbols, s, i)[k].at < Dispatched(symbols, s, i)[m].at
    ensures forall j :: i <= j < |s| && HandlerAt(symbols, s[j]).Some? ==>
      exists k :: 0 <= k < |Dispatched(symbols, s, i)| && Dispatched(symbols, s, i)[k].at == j
  {
    DispatchedInRange(symbols, s, i);
    DispatchedOrdered(symbols, s, i);
    DispatchedComplete(symbols, s, i);
  }

  /** Every call is for a position from `i` on whose symbol has that handler. */
  ghost predicate CallsInRange<A>(symbols: map<char, Symbol<A>>, s: string, i: nat, calls: seq<Call<A>>) {
    forall k :: 0 <= k < |calls| ==>
      i <= calls[k].at < |s| && HandlerAt(symbols, s[calls[k].at]) == Some(calls[k].handler)
  }

  lemma {:induction false} DispatchedInRange<A>(symbols: map<char, Symbol<A>>, s: string, i: nat)
    requires i <= |s|
    ensures CallsInRange(symbols, s, i, Dispatched(symbols, s, i))
    decreases |s| - i
  {
    if i < |s| {
      DispatchedInRange(symbols, s, i + 1);
      var rest := Dispatched(symbols, s, i + 1);
      match HandlerAt(symbols, s[i])
      case None =>
      case Some(h) =>
        var calls := [Call(i, h)] + rest;
        assert Dispatched(symbols, s, i) == calls;
        forall k | 0 <= k < |calls|
          ensures i <= calls[k].at < |s| && HandlerAt(symbols, s[calls[k].at]) == Some(calls[k].handler)
        {
          if k > 0 {
            assert calls[k] == rest[k - 1];
          }
        }
    }
  }

  ghost predicate CallsOrdered<A>(calls: seq<Call<A>>) {
    forall k, m :: 0 <= k < m < |calls| ==> calls[k].at < calls[m].at
  }

  lemma {:induction false} DispatchedOrdered<A>(symbols: map<char, Symbol<A>>, s: string, i: nat)
    requires i <= |s|
    ensures CallsOrdered(Dispatched(symbols, s, i))
    decreases |s| - i
  {
    if i < |s| {
      DispatchedOrdered(symbols, s, i + 1);
      DispatchedInRange(symbols, s, i + 1);
      var rest := Dispatched(symbols, s, i + 1);
      match HandlerAt(symbols, s[i])
      case None =>
      case Some(h) =>
        var calls := [Call(i, h)] + rest;
        assert Dispatched(symbols, s, i) == calls;
        forall k, m | 0 <= k < m < |calls| ensures calls[k].at < calls[m].at {
          assert calls[m] == rest[m - 1];
          if k > 0 {
            assert calls[k] == rest[k - 1];
          }
        }
    }
  }

  ghost predicate CallsCover<A>(symbols: map<char, Symbol<A>>, s: string, i: nat, calls: seq<Call<A>>) {
    forall j :: i <= j < |s| && HandlerAt(symbols, s[j]).Some? ==>
      exists k :: 0 <= k < |calls| && calls[k].at == j
  }

  lemma {:induction false} DispatchedComplete<A>(symbols: map<char, Symbol<A>>, s: string, i: nat)
    requires i <= |s|
    ensures CallsCover(symbols, s, i, Dispatched(symbols, s, i))
    decreases |s| - i
  {
    if i < |s| {
      DispatchedComplete(symbols, s, i + 1);
      var rest := Dispatched(symbols, s, i + 1);
      match HandlerAt(symbols, s[i])
      case None =>
        assert Dispatched(symbols, s, i) == rest;
      case Some(h) =>
        var calls := [Call(i, h)] + rest;
        assert Dispatched(symbols, s, i) == calls;
        forall j | i <= j < |s| && HandlerAt(symbols, s[j]).Some?
          ensures exists k :: 0 <= k < |calls| && calls[k].at == j
        {
          if j == i {
            assert calls[0].at == j;
          } else {
            var k :| 0 <= k < |rest| && rest[k].at == j;
            assert calls[k + 1].at == j;
          }
        }
    }
  }

  /** `[` and `]` keep their built-in handlers and no other symbol uses them. */
  predicate BuiltinBrackets<A>(symbols: map<char, Symbol<A>>) {
    && HandlerAt(symbols, '[') == Some(SaveState)
    && HandlerAt(symbols, ']') == Some(RestoreState)
    && forall c :: c in symbols && !IsBracket(c) ==>
         symbols[c].handler.None? || symbols[c].handler.value.Client?
  }

  /** No client handler throws. */
  ghost predicate ClientsTotal<A(!new), T(!new), P(!new)>(run: ClientRun<A, T, P>) {
    forall sc, a :: run(sc, a).Success?
  }

  /** The replay of the rest of the string fails exactly when some `]` finds
      the stack empty, i.e. when the rest is not nested from the current
      stack height; otherwise stack height and depth move by its level. */
  ghost predicate NestingOutcome<A, T, P>(symbols: map<char, Symbol<A>>, run: ClientRun<A, T, P>, sc: Scope<T, P>)
    requires sc.itr <= |sc.rootString|
  {
    var rest := sc.rootString[sc.itr..];
    var r := Run(symbols, run, sc);
    && (r.Success? <==> Nested(rest, Height(sc.stack), 0))
    && (r.Success? ==>
          Height(r.value.0.stack) == Height(sc.stack) + Level(rest)
          && r.value.0.depth == sc.depth + Level(rest))
  }

  lemma {:induction false} RunNesting<A(!new), T(!new), P(!new)>(symbols: map<char, Symbol<A>>, run: ClientRun<A, T, P>,
                                               sc: Scope<T, P>)
    requires sc.itr <= |sc.rootString| && BuiltinBrackets(symbols) && ClientsTotal(run)
    ensures NestingOutcome(symbols, run, sc)
    decreases |sc.rootString| - sc.itr, 1
  {
    var s, i := sc.rootString, sc.itr;
    if i == |s| {
      assert s[i..] == [];
    } else if s[i] == '[' {
      RunNestingOpen(symbols, run, sc);
    } else if s[i] == ']' {
      RunNestingClose(symbols, run, sc);
    } else {
      RunNestingOther(symbols, run, sc);
    }
  }

  lemma {:induction false} RunNestingOpen<A(!new), T(!new), P(!new)>(symbols: map<char, Symbol<A>>, run: ClientRun<A, T, P>,
                                                   sc: Scope<T, P>)
    requires sc.itr < |sc.rootString| && sc.rootString[sc.itr] == '['
    requires BuiltinBrackets(symbols) && ClientsTotal(run)
    ensures NestingOutcome(symbols, run, sc)
    decreases |sc.rootString| - sc.itr, 0
  {
    var sc' := OpSaveState(sc).(depth := sc.depth + 1);
    RunNesting(symbols, run, sc'.(itr := sc.itr + 1));
    NestingStep(symbols, run, sc, SaveState, sc', 1);
  }

  lemma {:induction false} RunNestingClose<A(!new), T(!new), P(!new)>(symbols: map<char, Symbol<A>>, run: ClientRun<A, T, P>,
                                                    sc: Scope<T, P>)
    requires sc.itr < |sc.rootString| && sc.rootString[sc.itr] == ']'
    requires BuiltinBrackets(symbols) && ClientsTotal(run)
    ensures NestingOutcome(symbols, run, sc)
    decreases |sc.rootString| - sc.itr, 0
  {
    if IsEmpty(sc.stack) {
      NestingUnderflow(symbols, run, sc);
    } else {
      var sc' := OpRestoreState(sc).value.(depth := sc.depth - 1);
      RunNesting(symbols, run, sc'.(itr := sc.itr + 1));
      NestingStep(symbols, run, sc, RestoreState, sc', -1);
    }
  }

  lemma {:induction false} RunNestingOther<A(!new), T(!new), P(!new)>(symbols: map<char, Symbol<A>>, run: ClientRun<A, T, P>,
                                                    sc: Scope<T, P>)
    requires sc.itr < |sc.rootString| && !IsBracket(sc.rootString[sc.itr])
    requires BuiltinBrackets(symbols) && ClientsTotal(run)
    ensures NestingOutcome(symbols, run, sc)
    decreases |sc.rootString| - sc.itr, 0
  {
    var c := sc.rootString[sc.itr];
    match HandlerAt(symbols, c)
    case None =>
      RunNesting(symbols, run, sc.(itr := sc.itr + 1));
      NestingSkip(symbols, run, sc);
    case Some(h) =>
      assert h.Client? && run(sc, h.action).Success?;
      var sc' := Invoke(sc, h, run).value;
      RunNesting(symbols, run, sc'.(itr := sc.itr + 1));
      NestingStep(symbols, run, sc, h, sc', 0);
  }

  /** One handled symbol that moves the stack height and depth by `delta`. */
  lemma NestingStep<A, T, P>(symbols: map<char, Symbol<A>>, run: ClientRun<A, T, P>, sc: Scope<T, P>,
                             h: Handler<A>, sc': Scope<T, P>, delta: int)
    requires sc.itr < |sc.rootString| && HandlerAt(symbols, sc.rootString[sc.itr]) == Some(h)
    requires Invoke(sc, h, run) == Success(sc')
    requires var c := sc.rootString[sc.itr]; delta == if c == '[' then 1 else if c == ']' then -1 else 0
    requires Height(sc'.stack) == Height(sc.stack) + delta && sc'.depth == sc.depth + delta
    requires sc.rootString[sc.itr] == ']' ==> Height(sc.stack) > 0
    requires NestingOutcome(symbols, run, sc'.(itr := sc.itr + 1))
    ensures NestingOutcome(symbols, run, sc)
  {
    RunHandled(symbols, run, sc, h, sc');
    var s, i := sc.rootString, sc.itr;
    assert s[i..][0] == s[i] && s[i..][1..] == s[i + 1..];
  }

  lemma NestingSkip<A, T, P>(symbols: map<char, Symbol<A>>, run: ClientRun<A, T, P>, sc: Scope<T, P>)
    requires sc.itr < |sc.rootString| && HandlerAt(symbols, sc.rootString[sc.itr]).None?
    requires !IsBracket(sc.rootString[sc.itr])
    requires NestingOutcome(symbols, run, sc.(itr := sc.itr + 1))
    ensures NestingOutcome(symbols, run, sc)
  {
    RunSkipped(symbols, run, sc);
    var s, i := sc.rootString, sc.itr;
    assert s[i..][0] == s[i] && s[i..][1..] == s[i + 1..];
  }

  lemma NestingUnderflow<A, T, P>(symbols: map<char, Symbol<A>>, run: ClientRun<A, T, P>, sc: Scope<T, P>)
    requires sc.itr < |sc.rootString| && sc.rootString[sc.itr] == ']' && IsEmpty(sc.stack)
    requires HandlerAt(symbols, ']') == Some(RestoreState)
    ensures NestingOutcome(symbols, run, sc)
  {
    RunHandlerFails(symbols, run, sc, RestoreState);
    var s, i := sc.rootString, sc.itr;
    assert s[i..][0] == s[i];
  }

  /** No client handler reports a stack underflow of its own. */
  ghost predicate ClientsNeverUnderflow<A(!new), T(!new), P(!new)>(run: ClientRun<A, T, P>) {
    forall sc, a :: run(sc, a).Failure? ==> !run(sc, a).error.StackUnderflow?
  }

  /** The frame invariant of an enclosed replay, relative to the stack `st0`
      and turtle `t0` it started from, at relative depth `l`: at depth 0 both
      are as they were; deeper, the entry just above `st0` saves `t0`. */
  ghost predicate Frame<T, P>(sc: Scope<T, P>, st0: Stack<StackEntry<T>>, t0: T, l: nat) {
    && Height(sc.stack) == Height(st0) + l
    && (l == 0 ==> sc.stack == st0 && sc.turtle == t0)
    && (l >= 1 ==> Drop(sc.stack, l - 1) == Push(st0, StackEntry(t0)))
  }

  lemma {:induction false} DropNext<T>(s: Stack<T>, n: nat)
    requires 1 <= n <= Height(s)
    ensures Drop(s.next, n - 1) == Drop(s, n)
  {
  }

  /** An enclosed replay never underflows; it succeeds when no client
      throws, and when it succeeds it ends on the stack, turtle and depth it
      started from. */
  ghost predicate EnclosedOutcome<A(!new), T(!new), P(!new)>(symbols: map<char, Symbol<A>>, run: ClientRun<A, T, P>,
                                                        sc: Scope<T, P>, st0: Stack<StackEntry<T>>, t0: T, l: nat)
    requires sc.itr <= |sc.rootString|
  {
    var r := Run(symbols, run, sc);
    && (ClientsTotal(run) ==> r.Success?)
    && (ClientsNeverUnderflow(run) && r.Failure? ==> !r.error.StackUnderflow?)
    && (r.Success? ==> r.value.0.stack == st0 && r.value.0.turtle == t0 && r.value.0.depth == sc.depth - l)
  }

  lemma {:induction false} RunEnclosed<A(!new), T(!new), P(!new)>(symbols: map<char, Symbol<A>>, run: ClientRun<A, T, P>,
                                                sc: Scope<T, P>, st0: Stack<StackEntry<T>>, t0: T, l: nat)
    requires sc.itr <= |sc.rootString| && BuiltinBrackets(symbols)
    requires Nested(sc.rootString[sc.itr..], l, 1) && l + Level(sc.rootString[sc.itr..]) == 0
    requires Frame(sc, st0, t0, l)
    ensures EnclosedOutcome(symbols, run, sc, st0, t0, l)
    decreases |sc.rootString| - sc.itr, 1
  {
    var s, i := sc.rootString, sc.itr;
    if i < |s| {
      var rest := s[i..];
      assert rest[0] == s[i] && rest[1..] == s[i + 1..];
      if s[i] == '[' {
        RunEnclosedOpen(symbols, run, sc, st0, t0, l);
      } else if s[i] == ']' {
        RunEnclosedClose(symbols, run, sc, st0, t0, l);
      } else {
        assert l >= 1 && Nested(s[i + 1..], l, 1) && l + Level(s[i + 1..]) == 0;
        RunEnclosedOther(symbols, run, sc, st0, t0, l);
      }
    } else {
      assert sc.rootString[sc.itr..] == [];
    }
  }

  lemma {:induction false} RunEnclosedOpen<A(!new), T(!new), P(!new)>(symbols: map<char, Symbol<A>>,
      run: ClientRun<A, T, P>, sc: Scope<T, P>, st0: Stack<StackEntry<T>>, t0: T, l: nat)
    requires sc.itr < |sc.rootString| && BuiltinBrackets(symbols) && sc.rootString[sc.itr] == '['
    requires var rest := sc.rootString[sc.itr + 1..]; Nested(rest, l + 1, 1) && l + 1 + Level(rest) == 0
    requires Frame(sc, st0, t0, l)
    ensures EnclosedOutcome(symbols, run, sc, st0, t0, l)
    decreases |sc.rootString| - sc.itr, 0
  {
    var sc' := OpSaveState(sc).(depth := sc.depth + 1);
    FrameAfterSave(sc, st0, t0, l);
    RunEnclosed(symbols, run, sc'.(itr := sc.itr + 1), st0, t0, l + 1);
    EnclosedStep(symbols, run, sc, SaveState, sc', st0, t0, l, l + 1);
  }

  lemma {:induction false} RunEnclosedClose<A(!new), T(!new), P(!new)>(symbols: map<char, Symbol<A>>,
      run: ClientRun<A, T, P>, sc: Scope<T, P>, st0: Stack<StackEntry<T>>, t0: T, l: nat)
    requires sc.itr < |sc.rootString| && BuiltinBrackets(symbols) && sc.rootString[sc.itr] == ']'
    requires var rest := sc.rootString[sc.itr + 1..]; l > 0 && Nested(rest, l - 1, 1) && l - 1 + Level(rest) == 0
    requires Frame(sc, st0, t0, l)
    ensures EnclosedOutcome(symbols, run, sc, st0, t0, l)
    decreases |sc.rootString| - sc.itr, 0
  {
    FrameAfterRestore(sc, st0, t0, l);
    var sc' := OpRestoreState(sc).value.(depth := sc.depth - 1);
    RunEnclosed(symbols, run, sc'.(itr := sc.itr + 1), st0, t0, l - 1);
    EnclosedStep(symbols, run, sc, RestoreState, sc', st0, t0, l, l - 1);
  }

  lemma {:induction false} RunEnclosedOther<A(!new), T(!new), P(!new)>(symbols: map<char, Symbol<A>>,
      run: ClientRun<A, T, P>, sc: Scope<T, P>, st0: Stack<StackEntry<T>>, t0: T, l: nat)
    requires sc.itr < |sc.rootString| && BuiltinBrackets(symbols) && !IsBracket(sc.rootString[sc.itr])
    requires l >= 1 && Nested(sc.rootString[sc.itr + 1..], l, 1) && l + Level(sc.rootString[sc.itr + 1..]) == 0
    requires Frame(sc, st0, t0, l)
    ensures EnclosedOutcome(symbols, run, sc, st0, t0, l)
    decreases |sc.rootString| - sc.itr, 0
  {
    var i := sc.itr;
    match HandlerAt(symbols, sc.rootString[i])
    case None =>
      RunEnclosed(symbols, run, sc.(itr := i + 1), st0, t0, l);
      RunSkipped(symbols, run, sc);
    case Some(h) =>
      assert h.Client?;
      if run(sc, h.action).Success? {
        var sc' := Invoke(sc, h, run).value;
        RunEnclosed(symbols, run, sc'.(itr := i + 1), st0, t0, l);
        EnclosedStep(symbols, run, sc, h, sc', st0, t0, l, l);
      } else {
        RunHandlerFails(symbols, run, sc, h);
      }
  }

  /** Saving goes one level deeper in the frame. */
  lemma FrameAfterSave<T, P>(sc: Scope<T, P>, st0: Stack<StackEntry<T>>, t0: T, l: nat)
    requires Frame(sc, st0, t0, l)
    ensures Frame(OpSaveState(sc).(depth := sc.depth + 1, itr := sc.itr + 1), st0, t0, l + 1)
  {
    if l >= 1 {
      DropNext(OpSaveState(sc).stack, l);
    }
  }

  /** Restoring inside the frame comes one level back up. */
  lemma FrameAfterRestore<T, P>(sc: Scope<T, P>, st0: Stack<StackEntry<T>>, t0: T, l: nat)
    requires Frame(sc, st0, t0, l) && l > 0
    ensures !IsEmpty(sc.stack)
    ensures Frame(OpRestoreState(sc).value.(depth := sc.depth - 1, itr := sc.itr + 1), st0, t0, l - 1)
  {
    if l >= 2 {
      DropNext(sc.stack, l - 1);
    }
  }

  /** One handled symbol that takes the relative depth from `l` to `l'`. */
  lemma EnclosedStep<A(!new), T(!new), P(!new)>(symbols: map<char, Symbol<A>>, run: ClientRun<A, T, P>,
                                           sc: Scope<T, P>, h: Handler<A>, sc': Scope<T, P>,
                                           st0: Stack<StackEntry<T>>, t0: T, l: nat, l': nat)
    requires sc.itr < |sc.rootString| && HandlerAt(symbols, sc.rootString[sc.itr]) == Some(h)
    requires Invoke(sc, h, run) == Success(sc')
    requires sc'.depth - l' == sc.depth - l
    requires EnclosedOutcome(symbols, run, sc'.(itr := sc.itr + 1), st0, t0, l')
    ensures EnclosedOutcome(symbols, run, sc, st0, t0, l)
  {
    RunHandled(symbols, run, sc, h, sc');
  }

  /** `process` of a string whose symbols all sit inside bracket pairs
      never underflows, succeeds when no client throws, and on success ends
      as it began: empty stack, depth 1, the fresh turtle. */
  lemma ProcessEnclosed<A(!new), T(!new), P(!new)>(g: Grammar<A>, payload: P, turtle0: T, run: ClientRun<A, T, P>)
    requires g.rootString.Some? && Enclosed(g.rootString.value) && BuiltinBrackets(g.symbols)
    ensures ClientsTotal(run) ==> Process(g, payload, turtle0, run).Success?
    ensures ClientsNeverUnderflow(run) && Process(g, payload, turtle0, run).Failure? ==>
      !Process(g, payload, turtle0, run).error.StackUnderflow?
    ensures Process(g, payload, turtle0, run).Success? ==>
      var fin := Process(g, payload, turtle0, run).value.0;
      IsEmpty(fin.stack) && fin.depth == 1 && fin.turtle == turtle0
  {
    var sc := FreshScope(g.rootString.value, g.maxDepth, turtle0, payload);
    assert sc.rootString[0..] == sc.rootString;
    RunEnclosed(g.symbols, run, sc, sc.stack, turtle0, 0);
  }

  /** A balanced string of brackets alone ends with an empty stack, depth 1
      and the original turtle. */
  lemma ProcessBalancedBrackets<A(!new), T(!new), P(!new)>(g: Grammar<A>, payload: P, turtle0: T, run: ClientRun<A, T, P>)
    requires g.rootString.Some? && Balanced(g.rootString.value)
    requires forall i :: 0 <= i < |g.rootString.value| ==> IsBracket(g.rootString.value[i])
    requires BuiltinBrackets(g.symbols) && ClientsTotal(run)
    ensures Process(g, payload, turtle0, run).Success?
    ensures var fin := Process(g, payload, turtle0, run).value.0;
      IsEmpty(fin.stack) && fin.depth == 1 && fin.turtle == turtle0
  {
    AllBracketsEnclosed(g.rootString.value, 0);
    ProcessEnclosed(g, payload, turtle0, run);
  }

  /** `process` throws exactly when the string is not nested from depth 0. */
  lemma ProcessUnderflow<A(!new), T(!new), P(!new)>(g: Grammar<A>, payload: P, turtle0: T, run: ClientRun<A, T, P>)
    requires g.rootString.Some? && BuiltinBrackets(g.symbols) && ClientsTotal(run)
    ensures Process(g, payload, turtle0, run).Failure? <==> !Nested(g.rootString.value, 0, 0)
    ensures Process(g, payload, turtle0, run).Success? ==>
      var fin := Process(g, payload, turtle0, run).value.0;
      Height(fin.stack) == Level(g.rootString.value) && fin.depth == 1 + Level(g.rootString.value)
  {
    var sc := FreshScope(g.rootString.value, g.maxDepth, turtle0, payload);
    assert sc.rootString[0..] == sc.rootString;
    RunNesting(g.symbols, run, sc);
  }

  /** A leading `]` pops the empty stack of the fresh scope. */
  lemma LeadingCloseUnderflows<A, T, P>(g: Grammar<A>, payload: P, turtle0: T, run: ClientRun<A, T, P>)
    requires g.rootString.Some? && |g.rootString.value| > 0 && g.rootString.value[0] == ']'
    requires HandlerAt(g.symbols, ']') == Some(RestoreState)
    ensures Process(g, payload, turtle0, run) == Failure(StackUnderflow(0))
  {
  }

  /** An unregistered symbol, or one without a handler, gets no call. */
  lemma SkippedSymbolsGetNoCall<A, T, P>(g: Grammar<A>, payload: P, turtle0: T, run: ClientRun<A, T, P>, j: nat)
    requires g.rootString.Some? && j < |g.rootString.value|
    requires HandlerAt(g.symbols, g.rootString.value[j]).None?
    requires Process(g, payload, turtle0, run).Success?
    ensures forall k :: 0 <= k < |Process(g, payload, turtle0, run).value.1| ==>
      Process(g, payload, turtle0, run).value.1[k].at != j
  {
    var calls := Process(g, payload, turtle0, run).value.1;
    DispatchedExactlyOnce(g.symbols, g.rootString.value, 0);
    forall k | 0 <= k < |calls|
      ensures calls[k].at != j
    {
      assert HandlerAt(g.symbols, g.rootString.value[calls[k].at]).Some?;
    }
  }
}
