/** The singly linked LIFO used to save and restore turtle state. */
module LinkedStack {

  /** `Empty` is the stack whose `top` is `undefined`; `Node` is a
      `{ value, next }` cell. */
  datatype Stack<T> = Empty | Node(value: T, next: Stack<T>)

  function New<T>(): (s: Stack<T>)
    ensures IsEmpty(s)
  {
    Empty
  }

  predicate IsEmpty<T>(s: Stack<T>) {
    s.Empty?
  }

  function Push<T>(s: Stack<T>, v: T): (r: Stack<T>)
    ensures !IsEmpty(r) && Peek(r) == v
    ensures Height(r) == Height(s) + 1
  {
    Node(v, s)
  }

  /** Reading `top.value` of an empty stack throws in the program, so both
      readers demand a non-empty stack. */
  function Peek<T>(s: Stack<T>): T
    requires !IsEmpty(s)
  {
    s.value
  }

  /** Returns the popped value together with the remaining stack. */
  function Pop<T>(s: Stack<T>): (r: (T, Stack<T>))
    requires !IsEmpty(s)
    ensures r.0 == Peek(s)
    ensures Height(r.1) + 1 == Height(s)
  {
    (s.value, s.next)
  }

  function Height<T>(s: Stack<T>): nat {
    if s.Empty? then 0 else 1 + Height(s.next)
  }

  /** The stack left after popping `n` entries. */
  function Drop<T>(s: Stack<T>, n: nat): Stack<T>
    requires n <= Height(s)
  {
    if n == 0 then s else Drop(s.next, n - 1)
  }

  lemma PushPop<T>(s: Stack<T>, v: T)
    ensures Pop(Push(s, v)) == (v, s)
  {
  }

  lemma PeekAfterPush<T>(s: Stack<T>, v: T)
    ensures !IsEmpty(Push(s, v))
    ensures Peek(Push(s, v)) == v
  {
  }

  /** Pushing every element of `vs` in order. */
  function PushAll<T>(s: Stack<T>, vs: seq<T>): (r: Stack<T>)
    ensures Height(r) == Height(s) + |vs|
  {
    if |vs| == 0 then s else Push(PushAll(s, vs[..|vs| - 1]), vs[|vs| - 1])
  }

  /** Popping `n` entries, collecting the values in the order they come off. */
  function PopN<T>(s: Stack<T>, n: nat): (r: (seq<T>, Stack<T>))
    requires n <= Height(s)
    ensures |r.0| == n
  {
    if n == 0 then ([], s)
    else
      var (v, rest) := Pop(s);
      var (vs, bottom) := PopN(rest, n - 1);
      ([v] + vs, bottom)
  }

  function Reverse<T>(vs: seq<T>): (r: seq<T>)
    ensures |r| == |vs|
    ensures forall i :: 0 <= i < |vs| ==> r[i] == vs[|vs| - 1 - i]
  {
    if |vs| == 0 then [] else [vs[|vs| - 1]] + Reverse(vs[..|vs| - 1])
  }

  /** Values pushed in sequence come off in reverse order, and the stack
      underneath is left exactly as it was. */
  lemma {:induction false} LastInFirstOut<T>(s: Stack<T>, vs: seq<T>)
    ensures PopN(PushAll(s, vs), |vs|) == (Reverse(vs), s)
    decreases |vs|
  {
    if |vs| > 0 {
      var init := vs[..|vs| - 1];
      LastInFirstOut(s, init);
      assert PopN(PushAll(s, vs), |vs|)
          == ([vs[|vs| - 1]] + PopN(PushAll(s, init), |init|).0, s);
    }
  }
}
