// EventLoopThreadPool: the fixed set of I/O loops a server hands new
// connections to, picked round-robin. Loops are named by their identifiers;
// the identifier each EventLoopThread::startLoop returns is an input of
// Start. The pool's methods are called on the base loop's thread only.
module EventLoopThreadPools {

  /** The index after next among n loops, wrapping to 0. */
  function NextIndex(next: nat, n: nat): (r: nat)
    ensures n > 0 && next < n ==> r < n
    ensures next + 1 < n ==> r == next + 1
    ensures next + 1 >= n ==> r == 0
  {
    if next + 1 >= n then 0 else next + 1
  }

  /** The loop getNextLoop returns when its cursor is at next. */
  function Pick(loops: seq<nat>, next: nat, baseLoop: nat): nat
  {
    if loops == [] then baseLoop else if next < |loops| then loops[next] else baseLoop
  }

  /** The cursor after one getNextLoop. */
  function Advance(loops: seq<nat>, next: nat): nat
  {
    if loops == [] then next else NextIndex(next, |loops|)
  }

  /** The cursor after k successive getNextLoop calls from cursor next. */
  function Cursor(loops: seq<nat>, next: nat, k: nat): nat
    decreases k
  {
    if k == 0 then next else Advance(loops, Cursor(loops, next, k - 1))
  }

  /** The loops returned by k successive getNextLoop calls from cursor next. */
  function Picks(loops: seq<nat>, next: nat, baseLoop: nat, k: nat): (s: seq<nat>)
    ensures |s| == k
    decreases k
  {
    if k == 0 then [] else Picks(loops, next, baseLoop, k - 1) + [Pick(loops, Cursor(loops, next, k - 1), baseLoop)]
  }

  /** The i-th of the successive picks is the loop under the cursor after i calls. */
  lemma {:induction false} PicksAt(loops: seq<nat>, next: nat, baseLoop: nat, k: nat, i: nat)
    requires i < k
    ensures Picks(loops, next, baseLoop, k)[i] == Pick(loops, Cursor(loops, next, i), baseLoop)
    decreases k
  {
    if i < k - 1 {
      PicksAt(loops, next, baseLoop, k - 1, i);
    }
  }

  /** The cursor never leaves [0, n). */
  lemma {:induction false} CursorInRange(loops: seq<nat>, next: nat, k: nat)
    requires next < |loops|
    ensures Cursor(loops, next, k) < |loops|
    decreases k
  {
    if k > 0 {
      CursorInRange(loops, next, k - 1);
    }
  }

  /** From a fresh cursor, k calls leave it at k mod n. */
  lemma {:induction false} CursorFromZero(loops: seq<nat>, k: nat)
    requires loops != []
    ensures Cursor(loops, 0, k) == k % |loops|
    decreases k
  {
    if k > 0 {
      CursorFromZero(loops, k - 1);
      ModStep(k - 1, |loops|);
    }
  }

  lemma MulAtLeast(a: int, n: int)
    requires a >= 1 && n > 0
    ensures a * n >= n
  {
    if a > 1 {
      MulAtLeast(a - 1, n);
      assert a * n == (a - 1) * n + n;
    }
  }

  lemma ModUnique(x: int, n: int, q: int, r: int)
    requires n > 0 && 0 <= r < n && x == q * n + r
    ensures x % n == r && x / n == q
  {
    var q', r' := x / n, x % n;
    assert x == q' * n + r';
    var d := q' - q;
    assert d * n == r - r' by {
      assert q' * n - q * n == (q' - q) * n;
    }
    if d >= 1 {
      MulAtLeast(d, n);
    } else if d <= -1 {
      MulAtLeast(-d, n);
    }
    assert d == 0;
  }

  lemma ModStep(k: nat, n: nat)
    requires n > 0
    ensures NextIndex(k % n, n) == (k + 1) % n
  {
    var q, r := k / n, k % n;
    if r + 1 < n {
      ModUnique(k + 1, n, q, r + 1);
    } else {
      assert (q + 1) * n == q * n + n;
      ModUnique(k + 1, n, q + 1, 0);
    }
  }

  /**
   * Successive picks from a fresh cursor cycle through the loops in order:
   * the i-th call returns loops[i mod n]. With no loops every call returns
   * the base loop.
   */
  lemma RoundRobin(loops: seq<nat>, baseLoop: nat, k: nat)
    ensures loops != [] ==> forall i :: 0 <= i < k ==> Picks(loops, 0, baseLoop, k)[i] == loops[i % |loops|]
    ensures loops == [] ==> forall i :: 0 <= i < k ==> Picks(loops, 0, baseLoop, k)[i] == baseLoop
  {
    forall i | 0 <= i < k
      ensures loops != [] ==> Picks(loops, 0, baseLoop, k)[i] == loops[i % |loops|]
      ensures loops == [] ==> Picks(loops, 0, baseLoop, k)[i] == baseLoop
    {
      PicksAt(loops, 0, baseLoop, k, i);
      if loops != [] {
        CursorFromZero(loops, i);
      }
    }
  }

  class EventLoopThreadPool {
    const baseLoop: nat
    var started: bool
    /** numThreads_: the number of extra I/O threads; 0 means single-threaded. */
    var numThreads: int
    var next: nat
    /** The number of EventLoopThread objects in threads_. */
    var threads: nat
    /** loops_, in creation order. */
    var loops: seq<nat>
    /** The loops the thread-init callback was called with from start itself. */
    var initCalls: seq<nat>

    constructor (baseLoop: nat)
      ensures this.baseLoop == baseLoop && !started && numThreads == 0 && next == 0
      ensures threads == 0 && loops == [] && initCalls == []
      ensures Valid()
    {
      this.baseLoop := baseLoop;
      started, numThreads, next := false, 0, 0;
      threads, loops, initCalls := 0, [], [];
    }

    ghost predicate Valid()
      reads this
    {
      && (!started ==> loops == [] && threads == 0)
      && threads == |loops|
      && (if loops == [] then next == 0 else next < |loops|)
    }

    method SetThreadNum(numThreads: int)
      modifies this`numThreads
      ensures this.numThreads == numThreads
    {
      this.numThreads := numThreads;
    }

    /**
     * start(cb): one EventLoopThread per requested thread, its loop appended
     * in order; started lists the loops those threads report. With no extra
     * threads and a callback, the callback runs once on the base loop.
     */
    method Start(hasCallback: bool, startedLoops: seq<nat>)
      requires Valid() && !started
      requires |startedLoops| == if numThreads > 0 then numThreads else 0
      modifies this`started, this`threads, this`loops, this`initCalls
      ensures Valid() && started
      ensures loops == startedLoops && threads == |startedLoops|
      ensures initCalls == old(initCalls) + (if numThreads == 0 && hasCallback then [baseLoop] else [])
    {
      started := true;
      var i := 0;
      while i < numThreads
        invariant 0 <= i <= |startedLoops|
        invariant numThreads > 0 ==> i <= numThreads
        invariant loops == startedLoops[..i] && threads == i
        invariant started && initCalls == old(initCalls)
      {
        threads := threads + 1;
        loops := loops + [startedLoops[i]];
        i := i + 1;
      }
      assert loops == startedLoops;
      if numThreads == 0 && hasCallback {
        initCalls := initCalls + [baseLoop];
      }
    }

    /** getNextLoop(): the base loop when there are no loops, else the next one round-robin. */
    method GetNextLoop() returns (loop: nat)
      requires Valid()
      modifies this`next
      ensures Valid()
      ensures loop == Pick(loops, old(next), baseLoop)
      ensures loops == [] ==> loop == baseLoop && next == old(next)
      ensures loops != [] ==> loop == loops[old(next)] && next == NextIndex(old(next), |loops|)
      ensures next == Advance(loops, old(next))
    {
      loop := baseLoop;
      if loops != [] {
        loop := loops[next];
        next := next + 1;
        if next >= |loops| {
          next := 0;
        }
      }
    }
  }
}
