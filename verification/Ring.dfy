/** The fixed-size ring buffer between producers and the consumer, and the
    bounded queue it refines. */
module Ring {

  /** What one queue operation asks for, and what it answers. */
  datatype Op<T> = Push(item: T) | Pop | IsFull | IsEmpty | Len
  datatype Answer<T> = Pushed | Full | Popped(item: T) | Empty | Flag(flag: bool) | Size(n: nat)

  /** The reference: a bounded first-in-first-out queue. */
  function QueueStep<T>(cap: nat, q: seq<T>, op: Op<T>): (seq<T>, Answer<T>)
  {
    match op
    case Push(x) => if |q| == cap then (q, Full) else (q + [x], Pushed)
    case Pop => if |q| == 0 then (q, Empty) else (q[1..], Popped(q[0]))
    case IsFull => (q, Flag(|q| == cap))
    case IsEmpty => (q, Flag(|q| == 0))
    case Len => (q, Size(|q|))
  }

  function QueueAfter<T>(cap: nat, ops: seq<Op<T>>): seq<T>
  {
    if |ops| == 0 then [] else QueueStep(cap, QueueAfter(cap, ops[..|ops| - 1]), ops[|ops| - 1]).0
  }

  function QueueAnswers<T>(cap: nat, ops: seq<Op<T>>): seq<Answer<T>>
  {
    if |ops| == 0 then []
    else QueueAnswers(cap, ops[..|ops| - 1])
         + [QueueStep(cap, QueueAfter(cap, ops[..|ops| - 1]), ops[|ops| - 1]).1]
  }

  /** The items that were accepted, and the items that were handed out. */
  function Accepted<T>(ops: seq<Op<T>>, answers: seq<Answer<T>>): seq<T>
    requires |ops| == |answers|
  {
    if |ops| == 0 then []
    else
      var rest := Accepted(ops[..|ops| - 1], answers[..|ops| - 1]);
      var op := ops[|ops| - 1];
      if op.Push? && answers[|ops| - 1].Pushed? then rest + [op.item] else rest
  }

  function HandedOut<T>(answers: seq<Answer<T>>): seq<T>
  {
    if |answers| == 0 then []
    else
      var rest := HandedOut(answers[..|answers| - 1]);
      var a := answers[|answers| - 1];
      if a.Popped? then rest + [a.item] else rest
  }

  /** Nothing is lost, duplicated or reordered by the reference queue: what was
      accepted is what was handed out followed by what is still inside. */
  lemma {:induction false} QueueIsFifo<T>(cap: nat, ops: seq<Op<T>>)
    ensures |QueueAnswers(cap, ops)| == |ops|
    ensures |QueueAfter(cap, ops)| <= cap
    ensures Accepted(ops, QueueAnswers(cap, ops)) == HandedOut(QueueAnswers(cap, ops)) + QueueAfter(cap, ops)
  {
    if |ops| != 0 {
      var init, last := ops[..|ops| - 1], ops[|ops| - 1];
      QueueIsFifo(cap, init);
      var q, answers := QueueAfter(cap, init), QueueAnswers(cap, ops);
      assert answers[..|ops| - 1] == QueueAnswers(cap, init);
      if last.Pop? && |q| != 0 {
        assert q == [q[0]] + q[1..];
      }
    }
  }

  /** The n items of a cyclic array that start at slot head. */
  ghost function View<T>(slots: seq<T>, head: nat, n: nat): (s: seq<T>)
    requires head < |slots| && n <= |slots|
    ensures |s| == n
    ensures forall i :: 0 <= i < n ==> s[i] == slots[Wrap(head + i, |slots|)]
  {
    if n == 0 then [] else View(slots, head, n - 1) + [slots[Wrap(head + n - 1, |slots|)]]
  }

  class Buffer<T(0)> {
    var data: array<T>
    const capacity: nat
    var head: nat
    var tail: nat
    var count: nat

    ghost predicate Valid()
      reads this
    {
      0 < capacity == data.Length && head < capacity && count <= capacity
      && tail == (head + count) % capacity
    }

    /** The queue the buffer stands for, oldest item first. */
    ghost function Contents(): (s: seq<T>)
      requires Valid()
      reads this, data
      ensures |s| == count
    {
      View(data[..], head, count)
    }

    constructor (capacity: nat)
      requires 0 < capacity
      ensures Valid() && fresh(data) && this.capacity == capacity && Contents() == []
    {
      data := new T[capacity];
      this.capacity := capacity;
      head, tail, count := 0, 0, 0;
    }

    /** Adds an item; reports false, changing nothing, when the buffer is full. */
    method Push(item: T) returns (ok: bool)
      requires Valid()
      modifies this, data
      ensures Valid() && data == old(data)
      ensures ok <==> |old(Contents())| < capacity
      ensures Contents() == if ok then old(Contents()) + [item] else old(Contents())
      ensures !ok ==> unchanged(this) && unchanged(data)
    {
      if count == capacity {
        return false;
      }
      WrapIsMod(head + count, capacity);
      assert 0 <= tail <= capacity - 1;  // the index assertion of the source cannot fire
      data[tail] := item;
      WrapIsMod(tail + 1, capacity);
      tail := (tail + 1) % capacity;
      count := count + 1;
      WrapIsMod(head + count, capacity);
      ok := true;
    }

    /** Removes the oldest item; None, changing nothing, when the buffer is empty. */
    method Pop() returns (ok: bool, item: T)
      requires Valid()
      modifies this
      ensures Valid() && data == old(data)
      ensures ok <==> old(Contents()) != []
      ensures ok ==> item == old(Contents())[0] && Contents() == old(Contents())[1..]
      ensures !ok ==> unchanged(this)
    {
      item := *;
      if count == 0 {
        return false, item;
      }
      assert 0 <= head <= capacity - 1;  // the index assertion of the source cannot fire
      item := data[head];
      WrapIsMod(head + count, capacity);
      WrapIsMod(head + 1, capacity);
      head := (head + 1) % capacity;
      count := count - 1;
      WrapIsMod(head + count, capacity);
      ok := true;
    }

    method IsFull() returns (full: bool)
      requires Valid()
      ensures full <==> |Contents()| == capacity
    {
      full := count == capacity;
    }

    method IsEmpty() returns (empty: bool)
      requires Valid()
      ensures empty <==> Contents() == []
    {
      empty := count == 0;
    }

    method Len() returns (n: nat)
      requires Valid()
      ensures n == |Contents()|
    {
      n := count;
    }
  }

  /** x modulo cap for the indices the ring computes. */
  function Wrap(x: nat, cap: nat): nat
  {
    if x < cap then x else x - cap
  }

  lemma WrapIsMod(x: nat, cap: nat)
    requires 0 < cap && x < 2 * cap
    ensures x % cap == Wrap(x, cap)
  {
  }

  /** The constructor function: no buffer for a capacity that is not positive. */
  method New<T(0)>(capacity: int) returns (b: Buffer?<T>)
    ensures b == null <==> capacity <= 0
    ensures b != null ==> b.Valid() && fresh(b) && fresh(b.data) && b.capacity == capacity && b.Contents() == []
  {
    if capacity <= 0 {
      return null;
    }
    b := new Buffer(capacity);
  }

  /** Drives a fresh ring through any list of operations: every answer is the
      one the bounded queue gives, wraparound included. */
  method Replay<T(0)>(capacity: nat, ops: seq<Op<T>>) returns (answers: seq<Answer<T>>)
    requires 0 < capacity
    ensures answers == QueueAnswers(capacity, ops)
  {
    var b := new Buffer<T>(capacity);
    answers := [];
    for i := 0 to |ops|
      invariant b.Valid() && b.capacity == capacity && fresh(b) && fresh(b.data)
      invariant b.Contents() == QueueAfter(capacity, ops[..i])
      invariant answers == QueueAnswers(capacity, ops[..i])
    {
      assert ops[..i + 1][..i] == ops[..i];
      match ops[i] {
        case Push(x) =>
          var ok := b.Push(x);
          answers := answers + [if ok then Pushed else Full];
        case Pop =>
          var ok, x := b.Pop();
          answers := answers + [if ok then Popped(x) else Empty];
        case IsFull =>
          var f := b.IsFull();
          answers := answers + [Flag(f)];
        case IsEmpty =>
          var f := b.IsEmpty();
          answers := answers + [Flag(f)];
        case Len =>
          var n := b.Len();
          answers := answers + [Size(n)];
      }
    }
    assert ops[..|ops|] == ops;
  }
}
