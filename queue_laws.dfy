/**
 * Laws of the queue over whole sequences of calls: a run of `enqueue`/`dequeue` calls is
 * interpreted on the observable state by `Run`, and `Execute` proves that the class
 * `ArrayQueue.Queue` follows that interpretation call for call.
 */
module QueueLaws {
  import opened Results
  import opened ArrayQueue

  datatype Op<T> = EnqueueOp(x: T) | DequeueOp

  function DequeueCount<T>(ops: seq<Op<T>>): nat {
    if ops == [] then 0 else (if ops[0].DequeueOp? then 1 else 0) + DequeueCount(ops[1..])
  }

  function EnqueueCount<T>(ops: seq<Op<T>>): nat {
    if ops == [] then 0 else (if ops[0].EnqueueOp? then 1 else 0) + EnqueueCount(ops[1..])
  }

  function Enqueues<T>(xs: seq<T>): seq<Op<T>> {
    seq(|xs|, i requires 0 <= i < |xs| => EnqueueOp(xs[i]))
  }

  function Dequeues<T>(n: nat): seq<Op<T>> {
    seq(n, _ => DequeueOp)
  }

  /**
   * The state after the calls `ops`, and what each `dequeue` among them returned or threw,
   * in call order. Every state reached keeps `1 <= capacity` and `size <= capacity`.
   */
  function Run<T>(v: QueueView<T>, ops: seq<Op<T>>): (r: (QueueView<T>, seq<Result<T>>))
    requires WellFormed(v)
    ensures WellFormed(r.0)
    ensures |r.1| == DequeueCount(ops)
    decreases |ops|
  {
    if ops == [] then (v, [])
    else
      match ops[0]
      case EnqueueOp(x) => Run(Enqueued(v, x), ops[1..])
      case DequeueOp =>
        var p := Dequeued(v);
        var rest := Run(p.1, ops[1..]);
        (rest.0, [p.0] + rest.1)
  }

  /** Running `a + b` is running `a`, then `b` from where `a` left off. */
  lemma {:induction false} RunAppend<T>(v: QueueView<T>, a: seq<Op<T>>, b: seq<Op<T>>)
    requires WellFormed(v)
    ensures Run(v, a + b) == (Run(Run(v, a).0, b).0, Run(v, a).1 + Run(Run(v, a).0, b).1)
    decreases |a|
  {
    if a == [] {
      assert a + b == b;
      assert [] + Run(v, b).1 == Run(v, b).1;
    } else {
      assert (a + b)[0] == a[0] && (a + b)[1..] == a[1..] + b;
      match a[0]
      case EnqueueOp(x) =>
        RunAppend(Enqueued(v, x), a[1..], b);
      case DequeueOp =>
        var p := Dequeued(v);
        RunAppend(p.1, a[1..], b);
        var o1 := Run(p.1, a[1..]).1;
        var o2 := Run(Run(p.1, a[1..]).0, b).1;
        assert [p.0] + (o1 + o2) == ([p.0] + o1) + o2;
    }
  }

  /** Enqueueing `xs` puts them at the back, in order, and reports nothing. */
  lemma {:induction false} RunEnqueues<T>(v: QueueView<T>, xs: seq<T>)
    requires WellFormed(v)
    ensures Run(v, Enqueues(xs)).0.items == v.items + xs
    ensures Run(v, Enqueues(xs)).1 == []
    decreases |xs|
  {
    if xs == [] {
      assert Enqueues(xs) == [];
    } else {
      assert Enqueues(xs)[0] == EnqueueOp(xs[0]) && Enqueues(xs)[1..] == Enqueues(xs[1..]);
      RunEnqueues(Enqueued(v, xs[0]), xs[1..]);
      assert v.items + [xs[0]] + xs[1..] == v.items + xs;
    }
  }

  /** `n` dequeues return the first `n` elements, front first, and leave the rest. */
  lemma {:induction false} RunDequeues<T>(v: QueueView<T>, n: nat)
    requires WellFormed(v) && n <= |v.items|
    ensures Run(v, Dequeues(n)).0.items == v.items[n..]
    ensures Run(v, Dequeues(n)).1 == Oks(v.items[..n])
    decreases n
  {
    if n == 0 {
      assert Dequeues<T>(0) == [];
      assert v.items[..0] == [];
    } else {
      var w := Dequeued(v).1;
      assert Run(v, Dequeues(n)) == (Run(w, Dequeues(n - 1)).0, [Ok(v.items[0])] + Run(w, Dequeues(n - 1)).1) by {
        assert Dequeues<T>(n)[0] == DequeueOp && Dequeues<T>(n)[1..] == Dequeues(n - 1);
      }
      assert w.items == v.items[1..];
      RunDequeues(w, n - 1);
      assert v.items[1..][n - 1..] == v.items[n..];
      assert v.items[..n] == [v.items[0]] + w.items[..n - 1];
      OksCons(v.items[0], w.items[..n - 1]);
    }
  }

  /**
   * FIFO: enqueueing `xs` and then dequeueing every element returns the elements that were
   * already queued followed by `xs`, in order, and leaves the queue empty.
   */
  lemma {:induction false} Fifo<T>(v: QueueView<T>, xs: seq<T>)
    requires WellFormed(v)
    ensures Run(v, Enqueues(xs) + Dequeues(|v.items| + |xs|)).1 == Oks(v.items + xs)
    ensures Run(v, Enqueues(xs) + Dequeues(|v.items| + |xs|)).0.items == []
  {
    RunAppend(v, Enqueues(xs), Dequeues(|v.items| + |xs|));
    RunEnqueues(v, xs);
    var w := Run(v, Enqueues(xs)).0;
    RunDequeues(w, |w.items|);
    assert w.items[..|w.items|] == v.items + xs;
  }

  /** The size after any calls is the size before, plus the enqueues, minus the dequeues that returned a value. */
  lemma {:induction false} SizeLaw<T>(v: QueueView<T>, ops: seq<Op<T>>)
    requires WellFormed(v)
    ensures |Run(v, ops).0.items| + OkCount(Run(v, ops).1) == |v.items| + EnqueueCount(ops)
    decreases |ops|
  {
    if ops != [] {
      match ops[0]
      case EnqueueOp(x) =>
        SizeLaw(Enqueued(v, x), ops[1..]);
      case DequeueOp =>
        var p := Dequeued(v);
        SizeLaw(p.1, ops[1..]);
        var outs := Run(p.1, ops[1..]).1;
        assert ([p.0] + outs)[0] == p.0 && ([p.0] + outs)[1..] == outs;
    }
  }

  /** The arguments of the `enqueue` calls among `ops`, in call order. */
  function EnqueuedValues<T>(ops: seq<Op<T>>): (xs: seq<T>)
    ensures |xs| == EnqueueCount(ops)
  {
    if ops == [] then []
    else (if ops[0].EnqueueOp? then [ops[0].x] else []) + EnqueuedValues(ops[1..])
  }

  /** A dequeue splits the contents into what it returned (nothing, when it threw) and what remains. */
  lemma DequeuedSplits<T>(v: QueueView<T>)
    requires WellFormed(v)
    ensures Payload(Dequeued(v).0) + Dequeued(v).1.items == v.items
  {
  }

  /**
   * FIFO over any interleaving of calls: the values the dequeues returned, followed by what is
   * still queued, are the elements queued at the start followed by everything enqueued, in
   * call order. Nothing is lost, duplicated or reordered.
   */
  lemma {:induction false} FifoOrder<T>(v: QueueView<T>, ops: seq<Op<T>>)
    requires WellFormed(v)
    ensures Values(Run(v, ops).1) + Run(v, ops).0.items == v.items + EnqueuedValues(ops)
    decreases |ops|
  {
    if ops == [] {
      assert Values<T>([]) + v.items == v.items + [];
    } else if ops[0].EnqueueOp? {
      var x, rest := ops[0].x, ops[1..];
      var w := Enqueued(v, x);
      var later := EnqueuedValues(rest);
      assert EnqueuedValues(ops) == [x] + later;
      assert Run(v, ops) == Run(w, rest);
      FifoOrder(w, rest);
      assert w.items + later == v.items + ([x] + later) by {
        assert w.items == v.items + [x];
      }
    } else {
      var rest := ops[1..];
      var p := Dequeued(v);
      var tail := Run(p.1, rest);
      var later := EnqueuedValues(rest);
      assert EnqueuedValues(ops) == later;
      assert Run(v, ops) == (tail.0, [p.0] + tail.1);
      FifoOrder(p.1, rest);
      ValuesCons(p.0, tail.1);
      DequeuedSplits(v);
      Regroup(Payload(p.0), Values(tail.1), tail.0.items, p.1.items, later);
    }
  }

  /** Putting the same prefix in front of two equal concatenations keeps them equal. */
  lemma Regroup<T>(front: seq<T>, said: seq<T>, left: seq<T>, mid: seq<T>, later: seq<T>)
    requires said + left == mid + later
    ensures (front + said) + left == (front + mid) + later
  {
    assert (front + said) + left == front + (said + left);
    assert (front + mid) + later == front + (mid + later);
  }

  /**
   * From capacity 1: enqueue 'a', 'b', 'c'; dequeue gives 'a'; enqueue 'd'; two dequeues
   * give 'b' then 'c'; what remains is ['d'], in a buffer of capacity 2.
   */
  lemma Scenario()
    ensures Run(QueueView([], 1), [EnqueueOp('a'), EnqueueOp('b'), EnqueueOp('c'), DequeueOp,
                                   EnqueueOp('d'), DequeueOp, DequeueOp])
         == (QueueView(['d'], 2), [Ok('a'), Ok('b'), Ok('c')])
  {
    var ops: seq<Op<char>> := [EnqueueOp('a'), EnqueueOp('b'), EnqueueOp('c'), DequeueOp,
                               EnqueueOp('d'), DequeueOp, DequeueOp];
    var q0, q1, q2, q3 := QueueView([], 1), QueueView(['a'], 1), QueueView(['a', 'b'], 2), QueueView(['a', 'b', 'c'], 4);
    var q4, q5, q6, q7 := QueueView(['b', 'c'], 4), QueueView(['b', 'c', 'd'], 4), QueueView(['c', 'd'], 4), QueueView(['d'], 2);
    assert Run(q6, ops[6..]) == (q7, [Ok('c')]) by {
      assert ops[6..][0] == DequeueOp && ops[6..][1..] == [];
      assert Dequeued(q6) == (Ok('c'), q7);
      assert [Ok('c')] + [] == [Ok('c')];
    }
    assert Run(q5, ops[5..]) == (q7, [Ok('b'), Ok('c')]) by {
      assert ops[5..][0] == DequeueOp && ops[5..][1..] == ops[6..];
      assert Dequeued(q5) == (Ok('b'), q6);
      assert [Ok('b')] + [Ok('c')] == [Ok('b'), Ok('c')];
    }
    assert Run(q4, ops[4..]) == (q7, [Ok('b'), Ok('c')]) by {
      assert ops[4..][0] == EnqueueOp('d') && ops[4..][1..] == ops[5..];
      assert Enqueued(q4, 'd') == q5;
    }
    assert Run(q3, ops[3..]) == (q7, [Ok('a'), Ok('b'), Ok('c')]) by {
      assert ops[3..][0] == DequeueOp && ops[3..][1..] == ops[4..];
      assert Dequeued(q3) == (Ok('a'), q4);
      assert [Ok('a')] + [Ok('b'), Ok('c')] == [Ok('a'), Ok('b'), Ok('c')];
    }
    assert Run(q0, ops) == (q7, [Ok('a'), Ok('b'), Ok('c')]) by {
      assert ops[0] == EnqueueOp('a') && ops[1..][0] == EnqueueOp('b') && ops[2..][0] == EnqueueOp('c');
      assert ops[1..][1..] == ops[2..] && ops[2..][1..] == ops[3..];
      assert Enqueued(q0, 'a') == q1 && Enqueued(q1, 'b') == q2 && Enqueued(q2, 'c') == q3;
    }
  }

  /** Running `ops` on a queue object does exactly what `Run` says, and reports the same outcomes. */
  method Execute<T(0)>(q: Queue<T>, ops: seq<Op<T>>) returns (outs: seq<Result<T>>)
    requires q.Valid()
    modifies q, q.data
    ensures q.Valid()
    ensures (q.View(), outs) == Run(old(q.View()), ops)
  {
    outs := [];
    for i := 0 to |ops|
      invariant q.Valid()
      invariant q.data == old(q.data) || fresh(q.data)
      invariant (q.View(), outs) == Run(old(q.View()), ops[..i])
    {
      ghost var before, said := q.View(), outs;
      ghost var step := Run(before, [ops[i]]);
      RunAppend(old(q.View()), ops[..i], [ops[i]]);
      assert ops[..i + 1] == ops[..i] + [ops[i]];
      assert [ops[i]][0] == ops[i] && [ops[i]][1..] == [];
      match ops[i] {
        case EnqueueOp(x) =>
          q.Enqueue(x);
          assert step == (q.View(), []) && said + [] == said;
        case DequeueOp =>
          var r := q.Dequeue();
          assert step == (q.View(), [r] + []) && [r] + [] == [r];
          outs := outs + [r];
      }
      assert (q.View(), outs) == (step.0, said + step.1);
    }
    assert ops[..|ops|] == ops;
  }
}
