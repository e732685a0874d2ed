/**
 * Laws of the stack over whole sequences of calls: a run of `push`/`pop` calls is
 * interpreted on the observable state by `Run`, and `Execute` proves that the class
 * `ArrayStack.Stack` follows that interpretation call for call.
 */
module StackLaws {
  import opened Results
  import opened ArrayStack

  datatype Op<T> = PushOp(x: T) | PopOp

  function PopCount<T>(ops: seq<Op<T>>): nat {
    if ops == [] then 0 else (if ops[0].PopOp? then 1 else 0) + PopCount(ops[1..])
  }

  function PushCount<T>(ops: seq<Op<T>>): nat {
    if ops == [] then 0 else (if ops[0].PushOp? then 1 else 0) + PushCount(ops[1..])
  }

  function Pushes<T>(xs: seq<T>): seq<Op<T>> {
    seq(|xs|, i requires 0 <= i < |xs| => PushOp(xs[i]))
  }

  function Pops<T>(n: nat): seq<Op<T>> {
    seq(n, _ => PopOp)
  }

  /** The elements of `s`, last first. */
  function Reverse<T>(s: seq<T>): (r: seq<T>)
    ensures |r| == |s|
  {
    if s == [] then [] else [s[|s| - 1]] + Reverse(s[..|s| - 1])
  }

  /**
   * The state after the calls `ops`, and what each `pop` among them returned or threw,
   * in call order. Every state reached keeps `1 <= capacity` and `size <= capacity`.
   */
  function Run<T>(v: StackView<T>, ops: seq<Op<T>>): (r: (StackView<T>, seq<Result<T>>))
    requires WellFormed(v)
    ensures WellFormed(r.0)
    ensures |r.1| == PopCount(ops)
    decreases |ops|
  {
    if ops == [] then (v, [])
    else
      match ops[0]
      case PushOp(x) => Run(Pushed(v, x), ops[1..])
      case PopOp =>
        var p := Popped(v);
        var rest := Run(p.1, ops[1..]);
        (rest.0, [p.0] + rest.1)
  }

  /** Running `a + b` is running `a`, then `b` from where `a` left off. */
  lemma {:induction false} RunAppend<T>(v: StackView<T>, a: seq<Op<T>>, b: seq<Op<T>>)
    requires WellFormed(v)
    ensures Run(v, a + b) == (Run(Run(v, a).0, b).0, Run(v, a).1 + Run(Run(v, a).0, b).1)
    decreases |a|
  {
    if a == [] {
      assert a + b == b;
      assert [] + Run(v, b).1 == Run(v, b).1;
    } else {
      assert (a + b)[0] == a[0] && (a + b)[1..] == a[1..] + b;
      match a[0]
      case PushOp(x) =>
        RunAppend(Pushed(v, x), a[1..], b);
      case PopOp =>
        var (out, w) := Popped(v);
        RunAppend(w, a[1..], b);
        var o1 := Run(w, a[1..]).1;
        var o2 := Run(Run(w, a[1..]).0, b).1;
        assert [out] + (o1 + o2) == ([out] + o1) + o2;
    }
  }

  /** Pushing `xs` stacks them on top, in order, and reports nothing. */
  lemma {:induction false} RunPushes<T>(v: StackView<T>, xs: seq<T>)
    requires WellFormed(v)
    ensures Run(v, Pushes(xs)).0.items == v.items + xs
    ensures Run(v, Pushes(xs)).1 == []
    decreases |xs|
  {
    if xs == [] {
      assert Pushes(xs) == [];
    } else {
      assert Pushes(xs)[0] == PushOp(xs[0]) && Pushes(xs)[1..] == Pushes(xs[1..]);
      RunPushes(Pushed(v, xs[0]), xs[1..]);
      assert v.items + [xs[0]] + xs[1..] == v.items + xs;
    }
  }

  /** `n` pops return the top `n` elements, top first, and leave the rest. */
  lemma {:induction false} RunPops<T>(v: StackView<T>, n: nat)
    requires WellFormed(v) && n <= |v.items|
    ensures Run(v, Pops(n)).0.items == v.items[..|v.items| - n]
    ensures Run(v, Pops(n)).1 == Oks(Reverse(v.items[|v.items| - n..]))
    decreases n
  {
    var k := |v.items| - n;
    if n == 0 {
      assert Pops<T>(0) == [];
      assert v.items[k..] == [] && v.items[..k] == v.items;
    } else {
      var m := |v.items| - 1;
      var w := Popped(v).1;
      assert Run(v, Pops(n)) == (Run(w, Pops(n - 1)).0, [Ok(v.items[m])] + Run(w, Pops(n - 1)).1) by {
        assert Pops<T>(n)[0] == PopOp && Pops<T>(n)[1..] == Pops(n - 1);
      }
      assert w.items == v.items[..m];
      RunPops(w, n - 1);
      assert w.items[..k] == v.items[..k];
      var top := v.items[k..];
      assert Reverse(top) == [v.items[m]] + Reverse(w.items[k..]) by {
        assert top[..|top| - 1] == w.items[k..];
      }
      OksCons(v.items[m], Reverse(w.items[k..]));
    }
  }

  /** LIFO: pushing `xs` and then popping as many times returns `xs` reversed and restores the elements. */
  lemma {:induction false} Lifo<T>(v: StackView<T>, xs: seq<T>)
    requires WellFormed(v)
    ensures Run(v, Pushes(xs) + Pops(|xs|)).1 == Oks(Reverse(xs))
    ensures Run(v, Pushes(xs) + Pops(|xs|)).0.items == v.items
  {
    RunAppend(v, Pushes(xs), Pops(|xs|));
    RunPushes(v, xs);
    var w := Run(v, Pushes(xs)).0;
    RunPops(w, |xs|);
    assert w.items[|w.items| - |xs|..] == xs;
    assert w.items[..|w.items| - |xs|] == v.items;
  }

  /** The size after any calls is the size before, plus the pushes, minus the pops that returned a value. */
  lemma {:induction false} SizeLaw<T>(v: StackView<T>, ops: seq<Op<T>>)
    requires WellFormed(v)
    ensures |Run(v, ops).0.items| + OkCount(Run(v, ops).1) == |v.items| + PushCount(ops)
    decreases |ops|
  {
    if ops != [] {
      match ops[0]
      case PushOp(x) =>
        SizeLaw(Pushed(v, x), ops[1..]);
      case PopOp =>
        var (out, w) := Popped(v);
        SizeLaw(w, ops[1..]);
        var outs := Run(w, ops[1..]).1;
        assert ([out] + outs)[0] == out && ([out] + outs)[1..] == outs;
    }
  }

  /**
   * From capacity 1, pushing 1, 2, 3, 4 grows the capacity 1, 1, 2, 4 (the grow step runs
   * before each write, on a full buffer only); popping four times then returns 4, 3, 2, 1
   * while the capacity goes 4, 4, 2, 1.
   */
  lemma Scenario()
    ensures Run(StackView([], 1), [PushOp(1), PushOp(2), PushOp(3), PushOp(4)])
         == (StackView([1, 2, 3, 4], 4), [])
    ensures Run(StackView([1, 2, 3, 4], 4), [PopOp, PopOp, PopOp, PopOp])
         == (StackView([], 1), [Ok(4), Ok(3), Ok(2), Ok(1)])
  {
    var pushes: seq<Op<int>> := [PushOp(1), PushOp(2), PushOp(3), PushOp(4)];
    assert Pushed(StackView([], 1), 1) == StackView([1], 1);
    assert Pushed(StackView([1], 1), 2) == StackView([1, 2], 2);
    assert Pushed(StackView([1, 2], 2), 3) == StackView([1, 2, 3], 4);
    assert Pushed(StackView([1, 2, 3], 4), 4) == StackView([1, 2, 3, 4], 4);
    assert Run(StackView([1, 2, 3, 4], 4), pushes[4..]) == (StackView([1, 2, 3, 4], 4), []);
    assert Run(StackView([1, 2, 3], 4), pushes[3..]) == (StackView([1, 2, 3, 4], 4), []);
    assert Run(StackView([1, 2], 2), pushes[2..]) == (StackView([1, 2, 3, 4], 4), []);
    assert Run(StackView([1], 1), pushes[1..]) == (StackView([1, 2, 3, 4], 4), []);

    var pops: seq<Op<int>> := [PopOp, PopOp, PopOp, PopOp];
    var v4, v3, v2, v1, v0 := StackView([1, 2, 3, 4], 4), StackView([1, 2, 3], 4), StackView([1, 2], 4), StackView([1], 2), StackView([], 1);
    assert Popped(v4) == (Ok(4), v3) && Popped(v3) == (Ok(3), v2);
    assert Popped(v2) == (Ok(2), v1) && Popped(v1) == (Ok(1), v0);
    assert pops[4..] == [] && pops[3..][1..] == pops[4..] && pops[2..][1..] == pops[3..] && pops[1..][1..] == pops[2..];
    assert Run(v0, pops[4..]) == (v0, []);
    assert Run(v1, pops[3..]).1 == [Ok(1)] + [];
    assert Run(v2, pops[2..]).1 == [Ok(2)] + [Ok(1)];
    assert Run(v3, pops[1..]).1 == [Ok(3)] + [Ok(2), Ok(1)];
    assert Run(v4, pops).1 == [Ok(4)] + [Ok(3), Ok(2), Ok(1)];
    assert Run(v1, pops[3..]).0 == v0 && Run(v2, pops[2..]).0 == v0;
    assert Run(v3, pops[1..]).0 == v0 && Run(v4, pops).0 == v0;
    assert [Ok(4)] + [Ok(3), Ok(2), Ok(1)] == [Ok(4), Ok(3), Ok(2), Ok(1)];
    assert Run(v4, pops) == (v0, [Ok(4), Ok(3), Ok(2), Ok(1)]);
  }

  /** Running `ops` on a stack object does exactly what `Run` says, and reports the same outcomes. */
  method Execute<T(0)>(s: Stack<T>, ops: seq<Op<T>>) returns (outs: seq<Result<T>>)
    requires s.Valid()
    modifies s, s.data
    ensures s.Valid()
    ensures (s.View(), outs) == Run(old(s.View()), ops)
  {
    outs := [];
    for i := 0 to |ops|
      invariant s.Valid()
      invariant s.data == old(s.data) || fresh(s.data)
      invariant (s.View(), outs) == Run(old(s.View()), ops[..i])
    {
      ghost var before, said := s.View(), outs;
      ghost var step := Run(before, [ops[i]]);
      RunAppend(old(s.View()), ops[..i], [ops[i]]);
      assert ops[..i + 1] == ops[..i] + [ops[i]];
      assert [ops[i]][0] == ops[i] && [ops[i]][1..] == [];
      match ops[i] {
        case PushOp(x) =>
          s.Push(x);
          assert step == (s.View(), []) && said + [] == said;
        case PopOp =>
          var r := s.Pop();
          assert step == (s.View(), [r] + []) && [r] + [] == [r];
          outs := outs + [r];
      }
      assert (s.View(), outs) == (step.0, said + step.1);
    }
    assert ops[..|ops|] == ops;
  }
}
