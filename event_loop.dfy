// The event loop's sequential bookkeeping: the pending-functor queue with its
// run-now-or-enqueue rule and wakeup decision, the swap-then-drain round, the
// poll-dispatch-drain iteration, quit, the channel forwarding checks and the
// one-loop-per-thread slot.
//
// Functors are values: each has an identifier, the functors it hands to
// queueInLoop when it runs (on the loop thread) and whether it calls quit.
// Thread identity is a number; a caller is in the loop thread when its number
// is the loop's.
module EventLoops {
  import opened Channels

  datatype Functor = Functor(id: nat, queues: seq<Functor>, quits: bool)

  /** One entry of a round's active list: the channel and whether its tie resolves. */
  datatype Ready = Ready(channel: Channel, ownerAlive: bool)

  /** What the loop forwards to its poller. */
  datatype PollerCall = UpdateCall(fd: int) | RemoveCall(fd: int)

  /** The identifiers of the functors, in order. */
  function Ids(fs: seq<Functor>): (r: seq<nat>)
    ensures |r| == |fs|
    ensures forall i :: 0 <= i < |fs| ==> r[i] == fs[i].id
    decreases |fs|
  {
    if fs == [] then [] else Ids(fs[..|fs| - 1]) + [fs[|fs| - 1].id]
  }

  /** The functors that running fs in order queues, in the order they are queued. */
  function Spawned(fs: seq<Functor>): seq<Functor>
    decreases |fs|
  {
    if fs == [] then [] else Spawned(fs[..|fs| - 1]) + fs[|fs| - 1].queues
  }

  /** Whether running fs calls quit. */
  function AnyQuits(fs: seq<Functor>): bool
    decreases |fs|
  {
    if fs == [] then false else AnyQuits(fs[..|fs| - 1]) || fs[|fs| - 1].quits
  }

  /** A drain quits exactly when one of the functors it runs calls quit. */
  lemma {:induction false} AnyQuitsMeans(fs: seq<Functor>)
    ensures AnyQuits(fs) <==> exists i :: 0 <= i < |fs| && fs[i].quits
    decreases |fs|
  {
    if fs != [] {
      var p := fs[..|fs| - 1];
      AnyQuitsMeans(p);
      assert forall i :: 0 <= i < |p| ==> p[i] == fs[i];
    }
  }

  /** Whether one of the first k drain rounds started from fs called quit. */
  function QuitBy(fs: seq<Functor>, k: nat): bool
  {
    k > 0 && (QuitBy(fs, k - 1) || AnyQuits(Snapshot(fs, k - 1)))
  }

  /** loop() has quit after k rounds exactly when one of those rounds' drains called quit. */
  lemma {:induction false} QuitByMeans(fs: seq<Functor>, k: nat)
    ensures QuitBy(fs, k) <==> exists j :: 0 <= j < k && AnyQuits(Snapshot(fs, j))
  {
    if k > 0 {
      QuitByMeans(fs, k - 1);
      if QuitBy(fs, k) {
        if !QuitBy(fs, k - 1) {
          var j := k - 1;
          assert 0 <= j < k && AnyQuits(Snapshot(fs, j));
          assert exists j :: 0 <= j < k && AnyQuits(Snapshot(fs, j));
        } else {
          var j :| 0 <= j < k - 1 && AnyQuits(Snapshot(fs, j));
          assert 0 <= j < k && AnyQuits(Snapshot(fs, j));
        }
      } else {
        forall j | 0 <= j < k
          ensures !AnyQuits(Snapshot(fs, j))
        {
          if j < k - 1 {
            assert !QuitBy(fs, k - 1);
          }
        }
      }
    }
  }

  /** The pending list after k drain rounds that started from fs. */
  function Snapshot(fs: seq<Functor>, k: nat): seq<Functor>
  {
    if k == 0 then fs else Spawned(Snapshot(fs, k - 1))
  }

  /** The identifiers run by k drain rounds that started from fs. */
  function RunIds(fs: seq<Functor>, k: nat): seq<nat>
  {
    if k == 0 then [] else RunIds(fs, k - 1) + Ids(Snapshot(fs, k - 1))
  }

  /** The wakeups written by k drain rounds: one per functor queued during a drain. */
  function Woken(fs: seq<Functor>, k: nat): nat
  {
    if k == 0 then 0 else Woken(fs, k - 1) + |Snapshot(fs, k)|
  }

  /** The descriptors dispatched by the given rounds, in order. */
  function Dispatched(rounds: seq<seq<Ready>>): seq<int>
    decreases |rounds|
  {
    if rounds == [] then [] else Dispatched(rounds[..|rounds| - 1]) + Fds(rounds[|rounds| - 1])
  }

  function Fds(ready: seq<Ready>): (r: seq<int>)
    ensures |r| == |ready|
    ensures forall i :: 0 <= i < |ready| ==> r[i] == ready[i].channel.fd
    decreases |ready|
  {
    if ready == [] then [] else Fds(ready[..|ready| - 1]) + [ready[|ready| - 1].channel.fd]
  }

  /** queueInLoop wakes the loop from another thread, or from inside a drain. */
  predicate WakesOnQueue(inLoopThread: bool, callingPendingFunctors: bool)
  {
    !inLoopThread || callingPendingFunctors
  }

  /** A functor is queued by running fs exactly when one of them lists it. */
  lemma {:induction false} SpawnedMembers(fs: seq<Functor>, g: Functor)
    ensures g in Spawned(fs) <==> exists i :: 0 <= i < |fs| && g in fs[i].queues
    decreases |fs|
  {
    if fs != [] {
      var p := fs[..|fs| - 1];
      SpawnedMembers(p, g);
      assert forall i :: 0 <= i < |p| ==> p[i] == fs[i];
    }
  }

  /** Running functors that queue nothing queues nothing. */
  lemma {:induction false} SpawnedQuiet(fs: seq<Functor>)
    requires forall i :: 0 <= i < |fs| ==> fs[i].queues == []
    ensures Spawned(fs) == []
    decreases |fs|
  {
    if fs != [] {
      SpawnedQuiet(fs[..|fs| - 1]);
    }
  }

  /**
   * When no pending functor queues another, the first round runs them all, in
   * order, and every later round finds the list empty.
   */
  lemma {:induction false} QuietDrain(fs: seq<Functor>, k: nat)
    requires forall i :: 0 <= i < |fs| ==> fs[i].queues == []
    requires k >= 1
    ensures Snapshot(fs, k) == []
    ensures RunIds(fs, k) == Ids(fs)
    ensures Woken(fs, k) == 0
    decreases k
  {
    SpawnedQuiet(fs);
    if k > 1 {
      QuietDrain(fs, k - 1);
      assert Spawned([]) == [];
    }
  }

  /** What one more round of loop() adds to each part of the loop's record. */
  lemma LoopStep(p0: seq<Functor>, rounds: seq<seq<Ready>>, k: nat, h0: seq<int>, r0: seq<nat>)
    requires k < |rounds|
    ensures Snapshot(p0, k + 1) == Spawned(Snapshot(p0, k))
    ensures (h0 + Dispatched(rounds[..k])) + Fds(rounds[k]) == h0 + Dispatched(rounds[..k + 1])
    ensures (r0 + RunIds(p0, k)) + Ids(Snapshot(p0, k)) == r0 + RunIds(p0, k + 1)
    ensures Woken(p0, k + 1) == Woken(p0, k) + |Spawned(Snapshot(p0, k))|
    ensures QuitBy(p0, k + 1) == (QuitBy(p0, k) || AnyQuits(Snapshot(p0, k)))
  {
    assert rounds[..k + 1][..k] == rounds[..k];
    AppendAssoc(h0, Dispatched(rounds[..k]), Fds(rounds[k]));
    AppendAssoc(r0, RunIds(p0, k), Ids(Snapshot(p0, k)));
  }

  lemma AppendAssoc<T>(a: seq<T>, b: seq<T>, c: seq<T>)
    ensures (a + b) + c == a + (b + c)
  {
  }

  /** t_loopInThisThread of one thread: the loop created in it, if any. */
  class ThreadSlot {
    const thread: nat
    var current: seq<nat>

    constructor (thread: nat)
      ensures this.thread == thread && current == []
    {
      this.thread := thread;
      current := [];
    }

    ghost predicate Valid()
      reads this
    {
      |current| <= 1
    }
  }

  class EventLoop {
    const id: nat
    /** threadId_: the thread that created the loop. */
    const threadId: nat
    var looping: bool
    var quit: bool
    var eventHandling: bool
    var callingPendingFunctors: bool
    /** pendingFunctors_ */
    var pending: seq<Functor>
    /** The identifiers of the functors run so far, oldest first. */
    var ran: seq<nat>
    /** The number of wakeup() writes so far. */
    var wakeups: nat
    /** activeChannels_ */
    var activeChannels: seq<Channel>
    /** currentActiveChannel_ */
    var currentActiveChannel: Channel?
    /** The descriptors of the channels whose events were handled, oldest first. */
    var handled: seq<int>
    /** The updateChannel/removeChannel calls handed to the poller, oldest first. */
    var pollerCalls: seq<PollerCall>
    const wakeupChannel: Channel

    /** The constructor's own state; NewEventLoop adds the per-thread check. */
    constructor (id: nat, threadId: nat, wakeupFd: int)
      ensures this.id == id && this.threadId == threadId
      ensures !looping && !quit && !eventHandling && !callingPendingFunctors
      ensures pending == [] && ran == [] && wakeups == 0
      ensures activeChannels == [] && currentActiveChannel == null && handled == [] && pollerCalls == []
      ensures fresh(wakeupChannel)
      ensures wakeupChannel.loop == id && wakeupChannel.fd == wakeupFd
      ensures wakeupChannel.events == kReadEvent && wakeupChannel.handlers.read
      ensures wakeupChannel.requests == [UpdateRequest(kReadEvent)]
    {
      this.id := id;
      this.threadId := threadId;
      looping, quit, eventHandling, callingPendingFunctors := false, false, false, false;
      pending, ran, wakeups := [], [], 0;
      activeChannels, currentActiveChannel, handled, pollerCalls := [], null, [], [];
      var ch := new Channel(id, wakeupFd);
      wakeupChannel := ch;
      new;
      ch.SetReadCallback(true);
      ch.EnableReading();
      assert WithReading(kNoneEvent) == kReadEvent;
    }

    predicate IsInLoopThread(caller: nat)
    {
      caller == threadId
    }

    /** wakeup(): one write to the wakeup descriptor. */
    method Wakeup()
      modifies this`wakeups
      ensures wakeups == old(wakeups) + 1
    {
      wakeups := wakeups + 1;
    }

    /** quit(): sets quit_, and wakes the loop only from another thread. */
    method Quit(caller: nat)
      modifies this`quit, this`wakeups
      ensures quit
      ensures wakeups == old(wakeups) + (if IsInLoopThread(caller) then 0 else 1)
    {
      quit := true;
      if !IsInLoopThread(caller) {
        Wakeup();
      }
    }

    /** queueInLoop(cb): appends cb, waking the loop off-thread or during a drain. */
    method QueueInLoop(f: Functor, caller: nat)
      modifies this`pending, this`wakeups
      ensures pending == old(pending) + [f]
      ensures wakeups == old(wakeups) + (if WakesOnQueue(IsInLoopThread(caller), callingPendingFunctors) then 1 else 0)
    {
      pending := pending + [f];
      if !IsInLoopThread(caller) || callingPendingFunctors {
        Wakeup();
      }
    }

    /** Running a functor on the loop thread: it queues its follow-ups, then quits if it does. */
    method RunFunctor(f: Functor)
      modifies this`ran, this`pending, this`wakeups, this`quit
      ensures ran == old(ran) + [f.id]
      ensures pending == old(pending) + f.queues
      ensures wakeups == old(wakeups) + (if callingPendingFunctors then |f.queues| else 0)
      ensures quit == (old(quit) || f.quits)
    {
      ran := ran + [f.id];
      var j := 0;
      while j < |f.queues|
        invariant 0 <= j <= |f.queues|
        invariant pending == old(pending) + f.queues[..j]
        invariant wakeups == old(wakeups) + (if callingPendingFunctors then j else 0)
        invariant ran == old(ran) + [f.id] && quit == old(quit)
      {
        QueueInLoop(f.queues[j], threadId);
        j := j + 1;
      }
      assert f.queues[..j] == f.queues;
      if f.quits {
        Quit(threadId);
      }
    }

    /** runInLoop(cb): runs cb at once on the loop thread, queues it otherwise. */
    method RunInLoop(f: Functor, caller: nat)
      modifies this`ran, this`pending, this`wakeups, this`quit
      ensures IsInLoopThread(caller) ==>
        ran == old(ran) + [f.id] && pending == old(pending) + f.queues && quit == (old(quit) || f.quits) &&
        wakeups == old(wakeups) + (if callingPendingFunctors then |f.queues| else 0)
      ensures !IsInLoopThread(caller) ==>
        ran == old(ran) && pending == old(pending) + [f] && quit == old(quit) && wakeups == old(wakeups) + 1
    {
      if IsInLoopThread(caller) {
        RunFunctor(f);
      } else {
        QueueInLoop(f, caller);
      }
    }

    /**
     * doPendingFunctors(): swaps the pending list out and runs exactly that list
     * in order; what those functors queue stays pending for the next round.
     */
    method DoPendingFunctors()
      requires !callingPendingFunctors
      modifies this`ran, this`pending, this`wakeups, this`quit, this`callingPendingFunctors
      ensures ran == old(ran) + Ids(old(pending))
      ensures pending == Spawned(old(pending))
      ensures wakeups == old(wakeups) + |Spawned(old(pending))|
      ensures quit == (old(quit) || AnyQuits(old(pending)))
      ensures !callingPendingFunctors
    {
      var functors: seq<Functor> := [];
      callingPendingFunctors := true;
      functors, pending := pending, functors;
      var i := 0;
      while i < |functors|
        invariant 0 <= i <= |functors| && functors == old(pending)
        invariant callingPendingFunctors
        invariant ran == old(ran) + Ids(functors[..i])
        invariant pending == Spawned(functors[..i])
        invariant wakeups == old(wakeups) + |Spawned(functors[..i])|
        invariant quit == (old(quit) || AnyQuits(functors[..i]))
      {
        assert functors[..i + 1][..i] == functors[..i];
        RunFunctor(functors[i]);
        i := i + 1;
      }
      assert functors[..i] == functors;
      callingPendingFunctors := false;
    }

    /**
     * One iteration of loop(): the poller's active list is dispatched in order
     * with eventHandling_ set, then pending functors are drained.
     */
    method Round(ready: seq<Ready>)
      requires !callingPendingFunctors
      requires forall i, j :: 0 <= i < j < |ready| ==> ready[i].channel != ready[j].channel
      modifies this`activeChannels, this`eventHandling, this`handled, this`currentActiveChannel
      modifies this`ran, this`pending, this`wakeups, this`quit, this`callingPendingFunctors
      modifies Targets(ready)`eventHandling, Targets(ready)`fired
      ensures activeChannels == ActiveList(ready) && currentActiveChannel == null && !eventHandling
      ensures handled == old(handled) + Fds(ready)
      ensures forall i :: 0 <= i < |ready| ==>
        ready[i].channel.fired == old(ready[i].channel.fired) +
          ready[i].channel.Owed(ready[i].ownerAlive)
      ensures ran == old(ran) + Ids(old(pending))
      ensures pending == Spawned(old(pending))
      ensures wakeups == old(wakeups) + |Spawned(old(pending))|
      ensures quit == (old(quit) || AnyQuits(old(pending)))
      ensures !callingPendingFunctors
    {
      activeChannels := ActiveList(ready);
      eventHandling := true;
      var fds := HandleAll(ready);
      handled := handled + fds;
      currentActiveChannel := null;
      eventHandling := false;
      DoPendingFunctors();
    }

    /**
     * loop(): runs rounds until a drain calls quit. The rounds are the poller's
     * successive active lists; the model stops when they run out.
     */
    method Loop(rounds: seq<seq<Ready>>, caller: nat) returns (served: nat)
      requires !looping && IsInLoopThread(caller) && !callingPendingFunctors
      requires forall r: seq<Ready> :: r in rounds ==> forall i, j :: 0 <= i < j < |r| ==> r[i].channel != r[j].channel
      modifies this`activeChannels, this`eventHandling, this`handled, this`currentActiveChannel
      modifies this`ran, this`pending, this`wakeups, this`quit, this`callingPendingFunctors, this`looping
      modifies AllTargets(rounds)`eventHandling, AllTargets(rounds)`fired
      ensures served <= |rounds| && !looping
      ensures quit == QuitBy(old(pending), served)
      ensures served < |rounds| ==> quit
      ensures served > 0 ==> !QuitBy(old(pending), served - 1)
      ensures handled == old(handled) + Dispatched(rounds[..served])
      ensures ran == old(ran) + RunIds(old(pending), served)
      ensures pending == Snapshot(old(pending), served)
      ensures wakeups == old(wakeups) + Woken(old(pending), served)
    {
      ghost var p0 := pending;
      looping := true;
      quit := false;
      served := 0;
      while !quit && served < |rounds|
        invariant served <= |rounds| && looping && !callingPendingFunctors
        invariant handled == old(handled) + Dispatched(rounds[..served])
        invariant ran == old(ran) + RunIds(p0, served)
        invariant pending == Snapshot(p0, served)
        invariant wakeups == old(wakeups) + Woken(p0, served)
        invariant quit == QuitBy(p0, served)
        invariant served > 0 ==> !QuitBy(p0, served - 1)
      {
        var r := rounds[served];
        assert r in rounds;
        TargetsWithin(rounds, served);
        LoopStep(p0, rounds, served, old(handled), old(ran));
        Round(r);
        served := served + 1;
      }
      looping := false;
    }

    /** updateChannel: only for this loop's channels, from its own thread. */
    method UpdateChannel(ch: Channel, caller: nat)
      requires ch.loop == id && IsInLoopThread(caller)
      modifies this`pollerCalls
      ensures pollerCalls == old(pollerCalls) + [UpdateCall(ch.fd)]
    {
      pollerCalls := pollerCalls + [UpdateCall(ch.fd)];
    }

    /**
     * removeChannel: during dispatch a channel may be removed only if it is the
     * one being handled or is not among the active ones.
     */
    method RemoveChannel(ch: Channel, caller: nat)
      requires ch.loop == id && IsInLoopThread(caller)
      requires eventHandling ==> currentActiveChannel == ch || ch !in activeChannels
      modifies this`pollerCalls
      ensures pollerCalls == old(pollerCalls) + [RemoveCall(ch.fd)]
    {
      pollerCalls := pollerCalls + [RemoveCall(ch.fd)];
    }
  }

  /**
   * The dispatch half of a loop iteration: each active channel, in order, handles
   * its event; the result lists their descriptors.
   */
  method HandleAll(ready: seq<Ready>) returns (fds: seq<int>)
    requires forall i, j :: 0 <= i < j < |ready| ==> ready[i].channel != ready[j].channel
    modifies Targets(ready)`eventHandling, Targets(ready)`fired
    ensures fds == Fds(ready)
    ensures forall i :: 0 <= i < |ready| ==>
      ready[i].channel.fired == old(ready[i].channel.fired) +
        ready[i].channel.Owed(ready[i].ownerAlive)
  {
    fds := [];
    var i := 0;
    while i < |ready|
      invariant 0 <= i <= |ready|
      invariant fds == Fds(ready[..i])
      invariant forall k :: 0 <= k < i ==>
        ready[k].channel.fired == old(ready[k].channel.fired) +
          ready[k].channel.Owed(ready[k].ownerAlive)
      invariant forall k :: i <= k < |ready| ==> ready[k].channel.fired == old(ready[k].channel.fired)
    {
      var ch := ready[i].channel;
      assert forall k :: 0 <= k < |ready| && k != i ==> ready[k].channel != ch;
      ch.HandleEvent(ready[i].ownerAlive);
      assert ready[..i + 1][..i] == ready[..i];
      fds := fds + [ch.fd];
      i := i + 1;
    }
    assert ready[..i] == ready;
  }

  function ActiveList(ready: seq<Ready>): (r: seq<Channel>)
    ensures |r| == |ready|
    ensures forall i :: 0 <= i < |ready| ==> r[i] == ready[i].channel
  {
    seq(|ready|, i requires 0 <= i < |ready| => ready[i].channel)
  }

  function Targets(ready: seq<Ready>): set<Channel>
  {
    set i | 0 <= i < |ready| :: ready[i].channel
  }

  lemma TargetsWithin(rounds: seq<seq<Ready>>, k: int)
    requires 0 <= k < |rounds|
    ensures Targets(rounds[k]) <= AllTargets(rounds)
  {
    forall c | c in Targets(rounds[k])
      ensures c in AllTargets(rounds)
    {
      var i :| 0 <= i < |rounds[k]| && rounds[k][i].channel == c;
      assert rounds[k] in rounds;
    }
  }

  function AllTargets(rounds: seq<seq<Ready>>): set<Channel>
  {
    set r: seq<Ready>, i: int | r in rounds && 0 <= i < |r| :: r[i].channel
  }

  /**
   * EventLoop(): a second loop in one thread is fatal; otherwise the loop is
   * recorded as that thread's loop.
   */
  method NewEventLoop(id: nat, slot: ThreadSlot, wakeupFd: int) returns (loop: EventLoop, fatal: bool)
    requires slot.Valid()
    modifies slot
    ensures fresh(loop) && loop.id == id && loop.threadId == slot.thread
    ensures fatal <==> old(slot.current) != []
    ensures slot.current == (if fatal then old(slot.current) else [id])
    ensures slot.Valid()
  {
    loop := new EventLoop(id, slot.thread, wakeupFd);
    fatal := slot.current != [];
    if !fatal {
      slot.current := [id];
    }
  }

  /** ~EventLoop(): clears the thread's slot. */
  method DestroyEventLoop(loop: EventLoop, slot: ThreadSlot)
    requires loop.threadId == slot.thread
    modifies slot
    ensures slot.current == []
  {
    slot.current := [];
  }
}
