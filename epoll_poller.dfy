// The epoll(7) poller: a map from descriptor to channel, a three-state
// registration machine kept in each channel's index, the epoll_ctl calls that
// machine issues, and the returned-event list that grows when a wait fills it.
//
// The kernel's interest list is not visible to the process; the model keeps the
// log of epoll_ctl calls and reads the interest list off it (Watched), which
// lets the registration machine be proved to mirror the kernel.
module EPollPollers {
  import opened Channels

  /** index_ values of a channel under this poller. */
  const kNew := -1
  const kAdded := 1
  const kDeleted := 2

  /** The initial length of the returned-event list. */
  const kInitEventListSize := 16

  predicate IsState(index: int)
  {
    index == kNew || index == kAdded || index == kDeleted
  }

  datatype CtlOp = CtlAdd | CtlMod | CtlDel

  /** One epoll_ctl call: the operation, the descriptor, the mask and whether it succeeded. */
  datatype Ctl = Ctl(op: CtlOp, fd: int, events: Mask, ok: bool)

  /** One entry of the list epoll_wait fills: the events and the channel stored as data.ptr. */
  datatype EpollEvent = EpollEvent(events: Mask, channel: Channel)

  /**
   * The kernel's interest list after the given epoll_ctl calls: a successful ADD
   * or MOD (re)registers the mask; a DEL leaves the descriptor unregistered
   * whether or not the call reports success (a failing DEL means there was no
   * registration to remove).  A failing ADD or MOD changes nothing.
   */
  function Watched(log: seq<Ctl>): map<int, Mask>
    decreases |log|
  {
    if log == [] then map[]
    else
      var m := Watched(log[..|log| - 1]);
      var c := log[|log| - 1];
      if c.op == CtlDel then m - {c.fd}
      else if c.ok then m[c.fd := c.events]
      else m
  }

  /** A call only ever touches its own descriptor's registration. */
  lemma {:induction false} WatchedOthers(log: seq<Ctl>, c: Ctl, fd: int)
    requires fd != c.fd
    ensures (fd in Watched(log + [c])) == (fd in Watched(log))
    ensures fd in Watched(log) ==> Watched(log + [c])[fd] == Watched(log)[fd]
  {
    assert (log + [c])[..|log|] == log;
  }

  /** After a call that did not fail fatally, its descriptor is watched iff it was an ADD or MOD. */
  lemma {:induction false} WatchedOwn(log: seq<Ctl>, c: Ctl)
    requires c.ok || c.op == CtlDel
    ensures c.fd in Watched(log + [c]) <==> c.op != CtlDel
    ensures c.op != CtlDel ==> Watched(log + [c])[c.fd] == c.events
  {
    assert (log + [c])[..|log|] == log;
  }

  datatype Outcome = Succeeded | Logged | Fatal

  /** update()'s error policy for one epoll_ctl result. */
  function CtlOutcome(op: CtlOp, rc: int): (o: Outcome)
    ensures o == Succeeded <==> rc >= 0
    ensures o == Fatal <==> rc < 0 && op != CtlDel
  {
    if rc >= 0 then Succeeded else if op == CtlDel then Logged else Fatal
  }

  /**
   * updateChannel's transition: from kNew or kDeleted an ADD into kAdded; from
   * kAdded a DEL into kDeleted for a none-event channel, a MOD otherwise.
   */
  function UpdateStep(index: int, noneEvent: bool): (r: (int, CtlOp))
    requires IsState(index)
    ensures r.0 == kAdded || r.0 == kDeleted
    ensures r.1 == CtlDel <==> r.0 == kDeleted
  {
    if index == kNew || index == kDeleted then (kAdded, CtlAdd)
    else if noneEvent then (kDeleted, CtlDel)
    else (kAdded, CtlMod)
  }

  /**
   * The registration machine mirrors the kernel: if a channel is watched exactly
   * when its state is kAdded before updateChannel's call, the same holds after
   * it unless the call was fatal.
   */
  lemma UpdateKeepsMirror(log: seq<Ctl>, index: int, noneEvent: bool, fd: int, e: Mask, rc: int)
    requires IsState(index)
    requires fd in Watched(log) <==> index == kAdded
    requires CtlOutcome(UpdateStep(index, noneEvent).1, rc) != Fatal
    ensures var (next, op) := UpdateStep(index, noneEvent);
            fd in Watched(log + [Ctl(op, fd, e, rc >= 0)]) <==> next == kAdded
  {
    var (next, op) := UpdateStep(index, noneEvent);
    WatchedOwn(log, Ctl(op, fd, e, rc >= 0));
  }

  /** removeChannel's call, if any: a DEL only when the channel is kAdded. */
  function RemoveCalls(index: int, fd: int, e: Mask, rc: int): (calls: seq<Ctl>)
    ensures |calls| <= 1
    ensures calls != [] <==> index == kAdded
    ensures forall c :: c in calls ==> c.op == CtlDel && c.fd == fd
  {
    if index == kAdded then [Ctl(CtlDel, fd, e, rc >= 0)] else []
  }

  /** After removeChannel's calls the descriptor is not watched, from either state. */
  lemma RemoveUnwatches(log: seq<Ctl>, index: int, fd: int, e: Mask, rc: int)
    requires index == kAdded || index == kDeleted
    requires fd in Watched(log) <==> index == kAdded
    ensures fd !in Watched(log + RemoveCalls(index, fd, e, rc))
  {
    if index == kAdded {
      WatchedOwn(log, Ctl(CtlDel, fd, e, rc >= 0));
    } else {
      assert log + [] == log;
    }
  }

  /** The capacity of the returned-event list after a wait that returned numEvents. */
  function Grown(capacity: nat, numEvents: int): (c: nat)
    ensures numEvents > 0 && numEvents == capacity ==> c == 2 * capacity
    ensures !(numEvents > 0 && numEvents == capacity) ==> c == capacity
  {
    if numEvents > 0 && numEvents == capacity then 2 * capacity else capacity
  }

  /**
   * fillActiveChannels: the first numEvents returned entries, in order, each
   * channel receiving its entry's events.
   */
  method FillActiveChannels(ready: seq<EpollEvent>, numEvents: int, channels: map<int, Channel>)
    returns (active: seq<Channel>)
    requires 0 <= numEvents <= |ready|
    requires forall i :: 0 <= i < numEvents ==>
      ready[i].channel.fd in channels && channels[ready[i].channel.fd] == ready[i].channel
    requires forall i, j :: 0 <= i < j < numEvents ==> ready[i].channel != ready[j].channel
    modifies channels.Values`revents
    ensures |active| == numEvents
    ensures forall i :: 0 <= i < numEvents ==> active[i] == ready[i].channel && active[i].revents == ready[i].events
    ensures forall fd :: fd in channels && channels[fd] !in active ==> channels[fd].revents == old(channels[fd].revents)
  {
    active := [];
    var i := 0;
    while i < numEvents
      invariant 0 <= i <= numEvents
      invariant |active| == i
      invariant forall k :: 0 <= k < i ==> active[k] == ready[k].channel && active[k].revents == ready[k].events
      invariant forall fd :: fd in channels && channels[fd] !in active ==> channels[fd].revents == old(channels[fd].revents)
    {
      var channel := ready[i].channel;
      channel.SetRevents(ready[i].events);
      active := active + [channel];
      i := i + 1;
    }
  }

  class EPollPoller {
    /** channels_: descriptor to channel. */
    var channels: map<int, Channel>
    /** The epoll_ctl calls issued, oldest first. */
    var ctls: seq<Ctl>
    /** events_.size() */
    var capacity: nat

    /**
     * Every mapped channel is filed under its own descriptor and is kAdded or
     * kDeleted, and the kernel watches exactly the kAdded ones.
     */
    ghost predicate Valid()
      reads this, channels.Values`index
    {
      (forall fd :: fd in channels ==>
        channels[fd].fd == fd && (channels[fd].index == kAdded || channels[fd].index == kDeleted)) &&
      (forall fd :: fd in Watched(ctls) <==> fd in channels && channels[fd].index == kAdded)
    }

    constructor ()
      ensures channels == map[] && ctls == [] && capacity == kInitEventListSize
      ensures Valid()
    {
      channels := map[];
      ctls := [];
      capacity := kInitEventListSize;
    }

    /** update(operation, channel): one epoll_ctl call whose result is rc. */
    method Update(op: CtlOp, ch: Channel, rc: int) returns (o: Outcome)
      modifies this`ctls
      ensures ctls == old(ctls) + [Ctl(op, ch.fd, ch.events, rc >= 0)]
      ensures o == CtlOutcome(op, rc)
    {
      ctls := ctls + [Ctl(op, ch.fd, ch.events, rc >= 0)];
      if rc < 0 {
        if op == CtlDel {
          o := Logged;
        } else {
          o := Fatal;
        }
      } else {
        o := Succeeded;
      }
    }

    /** updateChannel: registers a new or deleted channel, or modifies or deletes an added one. */
    method UpdateChannel(ch: Channel, rc: int) returns (o: Outcome)
      requires Valid()
      requires IsState(ch.index)
      requires ch.index == kNew ==> ch.fd !in channels
      requires ch.index != kNew ==> ch.fd in channels && channels[ch.fd] == ch
      modifies this`channels, this`ctls, ch`index
      ensures channels == old(channels)[ch.fd := ch]
      ensures ch.index == UpdateStep(old(ch.index), ch.IsNoneEvent()).0
      ensures ctls == old(ctls) + [Ctl(UpdateStep(old(ch.index), ch.IsNoneEvent()).1, ch.fd, ch.events, rc >= 0)]
      ensures o == CtlOutcome(UpdateStep(old(ch.index), ch.IsNoneEvent()).1, rc)
      ensures o != Fatal ==> Valid()
    {
      ghost var log, index := ctls, ch.index;
      var fd := ch.fd;
      if ch.index == kNew || ch.index == kDeleted {
        if ch.index == kNew {
          channels := channels[fd := ch];
        }
        ch.SetIndex(kAdded);
        o := Update(CtlAdd, ch, rc);
      } else {
        if ch.IsNoneEvent() {
          o := Update(CtlDel, ch, rc);
          ch.SetIndex(kDeleted);
        } else {
          o := Update(CtlMod, ch, rc);
        }
      }
      if o != Fatal {
        UpdateKeepsMirror(log, index, ch.IsNoneEvent(), fd, ch.events, rc);
        forall g | g != fd
          ensures g in Watched(ctls) <==> g in Watched(log)
        {
          WatchedOthers(log, ctls[|ctls| - 1], g);
        }
      }
    }

    /** removeChannel: unregisters a none-event channel, with a DEL only if it is still added. */
    method RemoveChannel(ch: Channel, rc: int) returns (o: Outcome)
      requires Valid()
      requires ch.fd in channels && channels[ch.fd] == ch
      requires ch.IsNoneEvent()
      requires ch.index == kAdded || ch.index == kDeleted
      modifies this`channels, this`ctls, ch`index
      ensures channels == old(channels) - {ch.fd}
      ensures ch.index == kNew
      ensures ctls == old(ctls) + RemoveCalls(old(ch.index), ch.fd, ch.events, rc)
      ensures o == (if old(ch.index) == kAdded then CtlOutcome(CtlDel, rc) else Succeeded)
      ensures o != Fatal
      ensures Valid()
    {
      ghost var log, index := ctls, ch.index;
      var fd := ch.fd;
      var idx := ch.index;
      channels := channels - {fd};
      o := Succeeded;
      if idx == kAdded {
        o := Update(CtlDel, ch, rc);
      }
      ch.SetIndex(kNew);
      assert ctls == log + RemoveCalls(index, fd, ch.events, rc);
      RemoveUnwatches(log, index, fd, ch.events, rc);
      forall g | g != fd
        ensures g in Watched(ctls) <==> g in Watched(log)
      {
        if index == kAdded {
          WatchedOthers(log, ctls[|ctls| - 1], g);
        } else {
          assert ctls == log;
        }
      }
    }

    /**
     * poll(): numEvents is epoll_wait's result and ready the entries it filled.
     * A positive result hands those channels out in order and doubles the list
     * when it was filled; zero or an error hands out nothing.
     */
    method Poll(numEvents: int, ready: seq<EpollEvent>) returns (active: seq<Channel>)
      requires Valid()
      requires numEvents <= capacity
      requires numEvents > 0 ==> numEvents <= |ready|
      requires forall i :: 0 <= i < numEvents && i < |ready| ==>
        ready[i].channel.fd in channels && channels[ready[i].channel.fd] == ready[i].channel
      requires forall i, j :: 0 <= i < j < numEvents && j < |ready| ==> ready[i].channel != ready[j].channel
      modifies this`capacity, channels.Values`revents
      ensures capacity == Grown(old(capacity), numEvents)
      ensures numEvents <= 0 ==> active == []
      ensures numEvents > 0 ==> |active| == numEvents
      ensures forall i :: 0 <= i < numEvents && i < |active| ==>
        active[i] == ready[i].channel && active[i].revents == ready[i].events
      ensures Valid()
    {
      active := [];
      if numEvents > 0 {
        active := FillActiveChannels(ready, numEvents, channels);
        if numEvents == capacity {
          capacity := capacity * 2;
        }
      }
    }
  }
}
