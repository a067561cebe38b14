/**
 * The bounded hand-off queue between the capture and the processing thread
 * (`RingBuffer<T>` in src/util/ring_buffer.h). The deque becomes a sequence,
 * front first; the mutex and condition variable are not modelled: every call
 * is one atomic step, and a `pop` that would block requires that it does not.
 */
module Handoff {

  /** The newest `n` items of `s`, oldest first. */
  function LastN<T>(s: seq<T>, n: nat): (r: seq<T>)
    ensures |r| == if |s| <= n then |s| else n
  {
    if |s| <= n then s else s[|s| - n..]
  }

  datatype PushResult<T> = PushResult(ok: bool, items: seq<T>)

  /** What `push(x)` answers and leaves in a buffer holding `items`. */
  function PushStep<T>(items: seq<T>, capacity: nat, dropOldest: bool, closed: bool, x: T): (r: PushResult<T>)
    requires |items| <= capacity
    requires dropOldest ==> capacity >= 1
    ensures r.ok <==> !closed && (|items| < capacity || dropOldest)
    ensures !r.ok ==> r.items == items
    ensures r.ok ==> r.items == LastN(items + [x], capacity)
    ensures |r.items| <= capacity
  {
    if closed then PushResult(false, items)
    else if |items| >= capacity then
      if dropOldest then PushResult(true, items[1..] + [x]) else PushResult(false, items)
    else PushResult(true, items + [x])
  }

  /** Keeping the newest `n` twice over is keeping the newest `n` once. */
  lemma LastNAppend<T>(s: seq<T>, x: T, n: nat)
    requires n >= 1
    ensures LastN(LastN(s, n) + [x], n) == LastN(s + [x], n)
  {
    var t := LastN(s, n);
    assert (s + [x])[|s| + 1 - |LastN(s + [x], n)|..] == LastN(s + [x], n);
    if |s| > n {
      assert t + [x] == (s + [x])[|s| - n..];
    }
  }

  /** The items left after pushing all of `xs` into an open drop-oldest buffer, with no pops. */
  function PushAll<T>(items: seq<T>, capacity: nat, xs: seq<T>): (r: seq<T>)
    requires capacity >= 1 && |items| <= capacity
    ensures |r| <= capacity
    decreases |xs|
  {
    if xs == [] then items
    else PushAll(PushStep(items, capacity, true, false, xs[0]).items, capacity, xs[1..])
  }

  /** The first of a run of pushes into a full-or-not drop-oldest buffer keeps the newest C items. */
  lemma PushAllUnfold<T>(items: seq<T>, capacity: nat, xs: seq<T>)
    requires capacity >= 1 && |items| <= capacity && xs != []
    ensures PushAll(items, capacity, xs) == PushAll(LastN(items + [xs[0]], capacity), capacity, xs[1..])
  {
  }

  /**
   * Under drop-oldest, after N pushes (no pops) the buffer holds exactly the
   * newest min(N + |items|, C) items, in push order.
   */
  lemma {:induction false} PushAllKeepsNewest<T>(items: seq<T>, capacity: nat, xs: seq<T>)
    requires capacity >= 1 && |items| <= capacity
    ensures PushAll(items, capacity, xs) == LastN(items + xs, capacity)
    decreases |xs|
  {
    if xs == [] {
      assert items + xs == items;
    } else {
      var next := LastN(items + [xs[0]], capacity);
      var rest := xs[1..];
      assert PushAll(items, capacity, xs) == PushAll(next, capacity, rest) by {
        PushAllUnfold(items, capacity, xs);
      }
      assert PushAll(next, capacity, rest) == LastN(next + rest, capacity) by {
        PushAllKeepsNewest(next, capacity, rest);
      }
      assert LastN(next + rest, capacity) == LastN(items + xs, capacity) by {
        LastNConcat(items + [xs[0]], rest, capacity);
        assert (items + [xs[0]]) + rest == items + xs by {
          assert xs == [xs[0]] + rest;
        }
      }
    }
  }

  lemma {:induction false} LastNConcat<T>(s: seq<T>, t: seq<T>, n: nat)
    requires n >= 1
    ensures LastN(LastN(s, n) + t, n) == LastN(s + t, n)
    decreases |t|
  {
    if t == [] {
      assert LastN(s, n) + t == LastN(s, n);
      assert s + t == s;
    } else {
      var last := t[|t| - 1];
      var init := t[..|t| - 1];
      LastNConcat(s, init, n);
      assert LastN(s, n) + t == (LastN(s, n) + init) + [last];
      assert s + t == (s + init) + [last];
      LastNAppend(LastN(s, n) + init, last, n);
      LastNAppend(s + init, last, n);
    }
  }

  /** From an empty buffer: the survivors of N pushes are the last min(N, C) pushed. */
  lemma SurvivorsOfPushes<T>(capacity: nat, xs: seq<T>)
    requires capacity >= 1
    ensures PushAll([], capacity, xs) == LastN(xs, capacity)
  {
    PushAllKeepsNewest([], capacity, xs);
    assert [] + xs == xs;
  }

  class RingBuffer<T> {
    const capacity: nat
    const dropOldest: bool
    /** `buffer_`, front first. */
    var items: seq<T>
    var closed: bool

    ghost predicate Valid()
      reads this
    {
      |items| <= capacity && (dropOldest ==> capacity >= 1)
    }

    /**
     * With capacity 0 and drop-oldest the first `push` pops the front of an
     * empty deque, which is undefined; that combination is excluded.
     */
    constructor (capacity: nat, dropOldest: bool)
      requires dropOldest ==> capacity >= 1
      ensures Valid()
      ensures this.capacity == capacity && this.dropOldest == dropOldest
      ensures items == [] && !closed
    {
      this.capacity := capacity;
      this.dropOldest := dropOldest;
      items := [];
      closed := false;
    }

    method Push(x: T) returns (ok: bool)
      requires Valid()
      modifies this
      ensures Valid() && closed == old(closed)
      ensures PushResult(ok, items) == PushStep(old(items), capacity, dropOldest, closed, x)
    {
      if closed {
        return false;
      }
      if |items| >= capacity {
        if dropOldest {
          items := items[1..];
        } else {
          return false;
        }
      }
      items := items + [x];
      ok := true;
    }

    /**
     * `pop(out)`: `out` keeps its value when nothing is delivered. The source
     * blocks until the buffer is closed or non-empty; here that is required.
     */
    method Pop(out0: T) returns (ok: bool, out: T)
      requires Valid()
      requires closed || |items| > 0
      modifies this
      ensures Valid() && closed == old(closed)
      ensures ok <==> |old(items)| > 0
      ensures ok ==> out == old(items)[0] && items == old(items)[1..]
      ensures !ok ==> out == out0 && items == old(items)
    {
      if |items| == 0 {
        return false, out0;
      }
      out := items[0];
      items := items[1..];
      ok := true;
    }

    /** Idempotent; buffered items stay to be drained. */
    method Close()
      requires Valid()
      modifies this
      ensures Valid() && closed && items == old(items)
    {
      closed := true;
    }

    method Size() returns (n: nat)
      ensures n == |items|
    {
      n := |items|;
    }
  }
}
