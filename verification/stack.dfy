/** The breadcrumb stack of the maze library: a last-in-first-out sequence
    whose capacity is only an allocation hint. The top of the stack is the
    last element of `data`. */
module Stacks {
  import opened Wrappers

  datatype Stack<T> = Stack(data: seq<T>)

  /** The one error a stack reports: popping an empty stack. */
  datatype StackError = ErrEmptyStack

  /** What `Pop` hands back: the stack after the call and either the element
      removed or the error. */
  datatype PopResult<T> = PopResult(rest: Stack<T>, value: Result<T, StackError>)

  /** A stack with room reserved for `capacity` elements; the capacity never
      limits how many elements it can hold. */
  function NewStack<T>(capacity: nat): (s: Stack<T>)
    ensures Len(s) == 0
  {
    Stack([])
  }

  /** The number of elements on the stack; it is zero exactly when the
      stack holds nothing. */
  function Len<T>(s: Stack<T>): (n: nat)
    ensures n == 0 <==> s.data == []
  {
    |s.data|
  }

  function Push<T>(s: Stack<T>, v: T): (r: Stack<T>)
    ensures Len(r) == Len(s) + 1
    ensures r.data[Len(s)] == v
    ensures r.data[..Len(s)] == s.data
  {
    Stack(s.data + [v])
  }

  function Pop<T>(s: Stack<T>): (r: PopResult<T>)
    ensures Len(s) > 0 ==> r.value == Ok(s.data[Len(s) - 1])
    ensures Len(s) > 0 ==> Len(r.rest) == Len(s) - 1 && r.rest.data == s.data[..Len(s) - 1]
    ensures Len(s) == 0 <==> r.value == Err(ErrEmptyStack)
    ensures Len(s) == 0 ==> r.rest == s
  {
    if Len(s) > 0 then
      PopResult(Stack(s.data[..Len(s) - 1]), Ok(s.data[Len(s) - 1]))
    else
      PopResult(s, Err(ErrEmptyStack))
  }

  /** Popping right after a push returns the pushed value and gives back the
      stack as it was before the push. */
  lemma PushPopRoundTrip<T>(s: Stack<T>, v: T)
    ensures Pop(Push(s, v)) == PopResult(s, Ok(v))
  {
    assert Push(s, v).data[..Len(s)] == s.data;
  }

  /** A pop that succeeds can be undone by pushing the value back. */
  lemma PopPushRoundTrip<T>(s: Stack<T>)
    requires Len(s) > 0
    ensures Push(Pop(s).rest, Pop(s).value.value) == s
  {
    assert s.data[..Len(s) - 1] + [s.data[Len(s) - 1]] == s.data;
  }

  /** One call on a stack, for reasoning about a history of calls. */
  datatype StackOp<T> = PushOp(v: T) | PopOp

  function ApplyOp<T>(s: Stack<T>, op: StackOp<T>): (r: Stack<T>)
  {
    match op
    case PushOp(v) => Push(s, v)
    case PopOp => Pop(s).rest
  }

  /** The stack after performing `ops` in order, starting from `s`. */
  function ApplyOps<T>(s: Stack<T>, ops: seq<StackOp<T>>): (r: Stack<T>)
    decreases |ops|
  {
    if |ops| == 0 then s else ApplyOps(ApplyOp(s, ops[0]), ops[1..])
  }

  function Pushes<T>(ops: seq<StackOp<T>>): (n: nat)
  {
    if |ops| == 0 then 0 else (if ops[0].PushOp? then 1 else 0) + Pushes(ops[1..])
  }

  /** How many of the pops in `ops`, run from `s`, find the stack non-empty. */
  function SuccessfulPops<T>(s: Stack<T>, ops: seq<StackOp<T>>): (n: nat)
    decreases |ops|
  {
    if |ops| == 0 then 0
    else (if ops[0].PopOp? && Len(s) > 0 then 1 else 0) + SuccessfulPops(ApplyOp(s, ops[0]), ops[1..])
  }

  /** The length of a stack is its initial length plus the number of pushes
      minus the number of pops that returned an element. */
  lemma {:induction false} LenCountsOperations<T>(s: Stack<T>, ops: seq<StackOp<T>>)
    ensures Len(ApplyOps(s, ops)) == Len(s) + Pushes(ops) - SuccessfulPops(s, ops)
    decreases |ops|
  {
    if |ops| > 0 {
      LenCountsOperations(ApplyOp(s, ops[0]), ops[1..]);
    }
  }

  /** Starting from a fresh stack, the length is exactly pushes minus
      successful pops. */
  lemma NewStackLenCountsOperations<T>(capacity: nat, ops: seq<StackOp<T>>)
    ensures Len(ApplyOps(NewStack<T>(capacity), ops)) == Pushes(ops) - SuccessfulPops(NewStack<T>(capacity), ops)
  {
    LenCountsOperations(NewStack<T>(capacity), ops);
  }
}
