// PollPoller: the poll(2) backend. It keeps one pollfd per registered
// channel in a dense array and a map from descriptor to channel; each
// channel remembers its slot in its index. A channel with no interest keeps
// its slot, with the descriptor stored as -fd-1 so that poll ignores it.
module PollPollers {
  import opened Channels

  /** struct pollfd: descriptor, requested events, returned events. */
  datatype PollFd = PollFd(fd: int, events: Mask, revents: Mask)

  /** The in-place encoding of an ignored descriptor. */
  function Ignored(fd: int): (x: int)
    ensures fd >= 0 ==> x < 0
  {
    -fd - 1
  }

  /** The descriptor a slot belongs to, whether ignored or not. */
  function Owner(x: int): (fd: int)
    ensures fd >= 0
  {
    if x < 0 then -x - 1 else x
  }

  /** The encoding is negative for every descriptor and decodes back. */
  lemma IgnoredRoundTrip(fd: int)
    requires fd >= 0
    ensures Ignored(fd) < 0 && Owner(Ignored(fd)) == fd && Owner(fd) == fd
  {
  }

  /** The slot updateChannel writes for a registered channel. */
  function Slot(fd: int, events: Mask): (p: PollFd)
    requires fd >= 0
    ensures p.fd == fd || p.fd == Ignored(fd)
    ensures p.fd < 0 <==> events == kNoneEvent
    ensures p.events == events && p.revents == {}
  {
    PollFd(if events == kNoneEvent then Ignored(fd) else fd, events, {})
  }

  /**
   * The slot updateChannel as written leaves for a registered channel: -fd-1
   * for a channel with no interest, otherwise whatever descriptor the slot
   * held before, so fd is never written back once interest returns.
   */
  function SlotAsWritten(old_: PollFd, fd: int, events: Mask): (p: PollFd)
    ensures events == kNoneEvent ==> p.fd == Ignored(fd)
    ensures events != kNoneEvent ==> p.fd == old_.fd
    ensures p.events == events && p.revents == {}
  {
    PollFd(if events == kNoneEvent then Ignored(fd) else old_.fd, events, {})
  }

  /**
   * A channel on any descriptor is disabled and then enabled again with
   * some interest: as written its slot keeps -fd-1, so poll goes on
   * ignoring it, where the corrected slot holds fd.
   */
  lemma StaleIgnoredSlot(fd: int, start: Mask, events: Mask)
    requires fd >= 0 && events != kNoneEvent
    ensures var off := SlotAsWritten(PollFd(fd, start, {}), fd, kNoneEvent);
            var on := SlotAsWritten(off, fd, events);
            on.fd == Ignored(fd) && on.fd < 0 && on.events == events && Slot(fd, events).fd == fd
  {
  }

  /** The slots poll reports, in array order. */
  function Reported(p: seq<PollFd>): (r: seq<PollFd>)
    ensures |r| <= |p|
  {
    if p == [] then []
    else Reported(p[..|p| - 1]) + (if p[|p| - 1].revents != {} then [p[|p| - 1]] else [])
  }

  /** fillActiveChannels' choice: the first n reported slots. */
  function Active(p: seq<PollFd>, n: int): (r: seq<PollFd>)
    ensures |r| <= if n <= 0 then 0 else n
    ensures r <= Reported(p)
  {
    var all := Reported(p);
    if n <= 0 then [] else if n >= |all| then all else all[..n]
  }

  lemma ReportedStep(p: seq<PollFd>, i: int)
    requires 0 <= i < |p|
    ensures Reported(p[..i + 1]) == Reported(p[..i]) + (if p[i].revents != {} then [p[i]] else [])
  {
    assert p[..i + 1][..i] == p[..i];
  }

  /** The reported slots are exactly the slots with events returned. */
  lemma {:induction false} ReportedMembers(p: seq<PollFd>, x: PollFd)
    ensures x in Reported(p) <==> x in p && x.revents != {}
  {
    if p != [] {
      var q := p[..|p| - 1];
      ReportedMembers(q, x);
      assert p == q + [p[|p| - 1]];
    }
  }

  lemma {:induction false} ReportedMonotone(p: seq<PollFd>, i: int)
    requires 0 <= i <= |p|
    ensures Reported(p[..i]) <= Reported(p)
    decreases |p| - i
  {
    if i < |p| {
      ReportedMonotone(p, i + 1);
      ReportedStep(p, i);
    } else {
      assert p[..i] == p;
    }
  }

  /** With distinct descriptors, no slot reported before i shares slot i's descriptor. */
  lemma ReportedBefore(p: seq<PollFd>, i: int)
    requires 0 <= i < |p|
    requires forall a, b :: 0 <= a < b < |p| ==> p[a].fd != p[b].fd
    ensures forall k :: 0 <= k < |Reported(p[..i])| ==> Reported(p[..i])[k].fd != p[i].fd
  {
    var r := Reported(p[..i]);
    forall k | 0 <= k < |r|
      ensures r[k].fd != p[i].fd
    {
      ReportedMembers(p[..i], r[k]);
    }
  }

  /** Where fillActiveChannels' walk stops, it has taken the first n reported slots. */
  lemma ActiveAtExit(p: seq<PollFd>, n: int, i: int)
    requires 0 <= i <= |p|
    requires n <= 0 ==> i == 0
    requires n > 0 ==> (i == |p| || |Reported(p[..i])| == n) && |Reported(p[..i])| <= n
    ensures Reported(p[..i]) == Active(p, n)
  {
    ReportedMonotone(p, i);
    if i == |p| {
      assert p[..i] == p;
    }
  }

  /** When poll's count covers every reported slot, all of them are taken. */
  lemma ActiveAll(p: seq<PollFd>, n: int)
    requires n >= |Reported(p)|
    ensures Active(p, n) == Reported(p)
  {
  }

  /**
   * The registry invariant over the slots and each registered descriptor's
   * index: every registered descriptor's index names a slot holding fd or
   * -fd-1, and every slot belongs to the descriptor whose index it is.
   */
  ghost predicate Registry(p: seq<PollFd>, ix: map<int, int>)
  {
    (forall fd {:trigger IndexOf(ix, fd)} :: fd in ix ==>
      fd >= 0 && 0 <= IndexOf(ix, fd) < |p| &&
      (SlotAt(p, IndexOf(ix, fd)).fd == fd || SlotAt(p, IndexOf(ix, fd)).fd == Ignored(fd))) &&
    (forall i {:trigger SlotAt(p, i)} :: 0 <= i < |p| ==>
      Owner(SlotAt(p, i).fd) in ix && IndexOf(ix, Owner(SlotAt(p, i).fd)) == i)
  }

  // The registry's quantifiers fire on these two names only, so that the
  // methods that carry the invariant do not unfold it at every slot access.
  function SlotAt(p: seq<PollFd>, i: int): PollFd
    requires 0 <= i < |p|
  {
    p[i]
  }

  function IndexOf(ix: map<int, int>, fd: int): int
    requires fd in ix
  {
    ix[fd]
  }

  /** The registry invariant, read at one descriptor. */
  lemma RegistryAt(p: seq<PollFd>, ix: map<int, int>, fd: int)
    requires Registry(p, ix) && fd in ix
    ensures fd >= 0 && 0 <= ix[fd] < |p| && (p[ix[fd]].fd == fd || p[ix[fd]].fd == Ignored(fd))
    ensures Owner(p[ix[fd]].fd) == fd
  {
    assert IndexOf(ix, fd) == ix[fd] && SlotAt(p, ix[fd]) == p[ix[fd]];
  }

  /** The registry invariant, read at one slot. */
  lemma RegistrySlot(p: seq<PollFd>, ix: map<int, int>, i: int)
    requires Registry(p, ix) && 0 <= i < |p|
    ensures Owner(p[i].fd) in ix && ix[Owner(p[i].fd)] == i
  {
    assert SlotAt(p, i) == p[i];
  }

  /** No descriptor owns two slots. */
  lemma RegistryDistinct(p: seq<PollFd>, ix: map<int, int>)
    requires Registry(p, ix)
    ensures forall i, j :: 0 <= i < j < |p| ==> Owner(p[i].fd) != Owner(p[j].fd)
  {
    forall i, j | 0 <= i < j < |p|
      ensures Owner(p[i].fd) != Owner(p[j].fd)
    {
      RegistrySlot(p, ix, i);
      RegistrySlot(p, ix, j);
    }
  }

  /** A new channel's slot goes at the end. */
  lemma RegistryAppend(p: seq<PollFd>, ix: map<int, int>, fd: int, e: Mask)
    requires Registry(p, ix) && fd >= 0 && fd !in ix
    ensures Registry(p + [PollFd(fd, e, {})], ix[fd := |p|])
  {
    var p', ix' := p + [PollFd(fd, e, {})], ix[fd := |p|];
    forall g | g in ix'
      ensures g >= 0 && 0 <= IndexOf(ix', g) < |p'|
      ensures SlotAt(p', IndexOf(ix', g)).fd == g || SlotAt(p', IndexOf(ix', g)).fd == Ignored(g)
    {
      if g != fd {
        RegistryAt(p, ix, g);
        assert p'[ix[g]] == p[ix[g]];
      }
    }
    forall i | 0 <= i < |p'|
      ensures Owner(SlotAt(p', i).fd) in ix' && IndexOf(ix', Owner(SlotAt(p', i).fd)) == i
    {
      if i < |p| {
        RegistrySlot(p, ix, i);
        assert p'[i] == p[i];
      }
    }
  }

  /** Rewriting a registered channel's slot keeps the registry. */
  lemma RegistryRewrite(p: seq<PollFd>, ix: map<int, int>, fd: int, e: Mask)
    requires Registry(p, ix) && fd in ix
    ensures fd >= 0 && 0 <= ix[fd] < |p|
    ensures Registry(p[ix[fd] := Slot(fd, e)], ix)
  {
    RegistryAt(p, ix, fd);
    var p' := p[ix[fd] := Slot(fd, e)];
    forall g | g in ix
      ensures g >= 0 && 0 <= IndexOf(ix, g) < |p'|
      ensures SlotAt(p', IndexOf(ix, g)).fd == g || SlotAt(p', IndexOf(ix, g)).fd == Ignored(g)
    {
      RegistryAt(p, ix, g);
      if ix[g] == ix[fd] {
        assert Owner(p[ix[fd]].fd) == g;
      }
    }
    forall i | 0 <= i < |p'|
      ensures Owner(SlotAt(p', i).fd) in ix && IndexOf(ix, Owner(SlotAt(p', i).fd)) == i
    {
      if i != ix[fd] {
        RegistrySlot(p, ix, i);
      }
    }
  }

  /** Only the descriptors matter to the registry, not the returned events. */
  lemma RegistryRevents(p: seq<PollFd>, q: seq<PollFd>, ix: map<int, int>)
    requires Registry(p, ix) && |p| == |q|
    requires forall i :: 0 <= i < |p| ==> q[i].fd == p[i].fd
    ensures Registry(q, ix)
  {
    forall g | g in ix
      ensures g >= 0 && 0 <= IndexOf(ix, g) < |q|
      ensures SlotAt(q, IndexOf(ix, g)).fd == g || SlotAt(q, IndexOf(ix, g)).fd == Ignored(g)
    {
      RegistryAt(p, ix, g);
    }
    forall i | 0 <= i < |q|
      ensures Owner(SlotAt(q, i).fd) in ix && IndexOf(ix, Owner(SlotAt(q, i).fd)) == i
    {
      RegistrySlot(p, ix, i);
    }
  }

  /** Removing the last slot. */
  lemma RegistryRemoveLast(p: seq<PollFd>, ix: map<int, int>, fd: int)
    requires Registry(p, ix) && fd in ix && 0 <= ix[fd] == |p| - 1
    ensures Registry(p[..|p| - 1], ix - {fd})
  {
    var last := |p| - 1;
    var p', ix' := p[..last], ix - {fd};
    forall g | g in ix'
      ensures g >= 0 && 0 <= IndexOf(ix', g) < |p'|
      ensures SlotAt(p', IndexOf(ix', g)).fd == g || SlotAt(p', IndexOf(ix', g)).fd == Ignored(g)
    {
      RegistryAt(p, ix, g);
      RegistryAt(p, ix, fd);
    }
    forall i | 0 <= i < |p'|
      ensures Owner(SlotAt(p', i).fd) in ix' && IndexOf(ix', Owner(SlotAt(p', i).fd)) == i
    {
      RegistrySlot(p, ix, i);
    }
  }

  /** Removing another slot: the last slot moves into it. */
  lemma RegistryRemoveSwap(p: seq<PollFd>, ix: map<int, int>, fd: int)
    requires Registry(p, ix) && fd in ix && 0 <= ix[fd] < |p| - 1
    ensures Owner(p[|p| - 1].fd) in ix && Owner(p[|p| - 1].fd) != fd
    ensures var last := |p| - 1;
            Registry(p[ix[fd] := p[last]][..last], (ix - {fd})[Owner(p[last].fd) := ix[fd]])
  {
    var last, idx := |p| - 1, ix[fd];
    RegistryAt(p, ix, fd);
    RegistrySlot(p, ix, last);
    var moved := Owner(p[last].fd);
    var p', ix' := p[idx := p[last]][..last], (ix - {fd})[moved := idx];
    forall g | g in ix'
      ensures g >= 0 && 0 <= IndexOf(ix', g) < |p'|
      ensures SlotAt(p', IndexOf(ix', g)).fd == g || SlotAt(p', IndexOf(ix', g)).fd == Ignored(g)
    {
      RegistryAt(p, ix, g);
    }
    forall i | 0 <= i < |p'|
      ensures Owner(SlotAt(p', i).fd) in ix' && IndexOf(ix', Owner(SlotAt(p', i).fd)) == i
    {
      if i != idx {
        RegistrySlot(p, ix, i);
      }
    }
  }

  /**
   * fillActiveChannels: walks the poller's slots in order while events
   * remain to be claimed, handing each reported slot's events to the
   * channel registered under its descriptor, which must carry that
   * descriptor. It reads the slots and the registry and changes neither.
   */
  method FillActiveChannels(pollfds: seq<PollFd>, channels: map<int, Channel>, numEvents: int)
    returns (active: seq<Channel>)
    requires forall i :: 0 <= i < |pollfds| && pollfds[i].revents != {} ==>
      pollfds[i].fd in channels && channels[pollfds[i].fd].fd == pollfds[i].fd
    requires forall i, j :: 0 <= i < j < |pollfds| ==> pollfds[i].fd != pollfds[j].fd
    modifies channels.Values`revents
    ensures |active| == |Active(pollfds, numEvents)|
    ensures forall k :: 0 <= k < |active| ==>
      Active(pollfds, numEvents)[k].fd in channels && active[k] == channels[Active(pollfds, numEvents)[k].fd] &&
      active[k].revents == Active(pollfds, numEvents)[k].revents
    ensures forall fd :: fd in channels && channels[fd] !in active ==> channels[fd].revents == old(channels[fd].revents)
  {
    active := [];
    ghost var taken: seq<PollFd> := [];
    var n := numEvents;
    var i := 0;
    while i < |pollfds| && n > 0
      invariant 0 <= i <= |pollfds|
      invariant |taken| == |active| && n == numEvents - |active|
      invariant numEvents <= 0 ==> i == 0
      invariant numEvents > 0 ==> n >= 0
      invariant taken == Reported(pollfds[..i])
      invariant forall k :: 0 <= k < |active| ==>
        taken[k].fd in channels && active[k] == channels[taken[k].fd] && active[k].fd == taken[k].fd &&
        active[k].revents == taken[k].revents
      invariant forall fd :: fd in channels && channels[fd] !in active ==> channels[fd].revents == old(channels[fd].revents)
    {
      ReportedStep(pollfds, i);
      var pfd := pollfds[i];
      if pfd.revents != {} {
        n := n - 1;
        var channel := channels[pfd.fd];
        ReportedBefore(pollfds, i);
        channel.SetRevents(pfd.revents);
        active := active + [channel];
        taken := taken + [pfd];
      }
      i := i + 1;
    }
    ActiveAtExit(pollfds, numEvents, i);
  }

  class PollPoller {
    /** pollfds_ */
    var pollfds: seq<PollFd>
    /** channels_: descriptor to channel. */
    var channels: map<int, Channel>
    /** Each registered descriptor's slot, which its channel's index mirrors. */
    ghost var slots: map<int, int>

    /** Each registered channel is filed under its own descriptor and knows its slot. */
    ghost predicate Linked()
      reads this, channels.Values`index
    {
      channels.Keys == slots.Keys &&
      forall fd :: fd in channels ==> channels[fd].fd == fd && channels[fd].index == slots[fd]
    }

    ghost predicate Valid()
      reads this, channels.Values`index
    {
      Linked() && Registry(pollfds, slots)
    }

    constructor ()
      ensures pollfds == [] && channels == map[]
      ensures Valid()
    {
      pollfds := [];
      channels := map[];
      slots := map[];
    }

    /** updateChannel: registers a new channel (index < 0) or rewrites its slot. */
    method UpdateChannel(ch: Channel)
      requires Valid() && ch.fd >= 0
      requires ch.index < 0 ==> ch.fd !in channels
      requires ch.index >= 0 ==> ch.fd in channels && channels[ch.fd] == ch
      modifies this, ch`index
      ensures Valid()
      ensures old(ch.index) < 0 ==>
        pollfds == old(pollfds) + [PollFd(ch.fd, ch.events, {})] &&
        ch.index == |old(pollfds)| && channels == old(channels)[ch.fd := ch]
      ensures old(ch.index) >= 0 ==>
        ch.index == old(ch.index) && ch.index < |old(pollfds)| &&
        pollfds == old(pollfds)[ch.index := Slot(ch.fd, ch.events)] && channels == old(channels)
    {
      if ch.index < 0 {
        RegistryAppend(pollfds, slots, ch.fd, ch.events);
        var pfd := PollFd(ch.fd, ch.events, {});
        pollfds := pollfds + [pfd];
        var idx := |pollfds| - 1;
        ch.SetIndex(idx);
        channels := channels[pfd.fd := ch];
        slots := slots[pfd.fd := idx];
      } else {
        RegistryRewrite(pollfds, slots, ch.fd, ch.events);
        var idx := ch.index;
        pollfds := pollfds[idx := Slot(ch.fd, ch.events)];
      }
    }

    /**
     * removeChannel: unregisters a channel with no interest whose slot is
     * ignored; the last slot moves into the freed one and its channel's
     * index follows it.
     */
    method RemoveChannel(ch: Channel)
      requires Valid()
      requires ch.fd in channels && channels[ch.fd] == ch && ch.IsNoneEvent()
      requires 0 <= ch.index < |pollfds|
      requires pollfds[ch.index].fd == Ignored(ch.fd) && pollfds[ch.index].events == ch.events
      modifies this, channels.Values`index
      ensures Valid()
      ensures channels == old(channels) - {ch.fd}
      ensures |pollfds| == |old(pollfds)| - 1
      ensures old(ch.index) == |pollfds| ==> pollfds == old(pollfds)[..|pollfds|] && slots == old(slots) - {ch.fd}
      ensures old(ch.index) < |pollfds| ==>
        pollfds == old(pollfds)[old(ch.index) := old(pollfds)[|pollfds|]][..|pollfds|] &&
        slots == (old(slots) - {ch.fd})[Owner(old(pollfds)[|pollfds|].fd) := old(ch.index)]
    {
      var idx := ch.index;
      var last := |pollfds| - 1;
      channels := channels - {ch.fd};
      if idx == last {
        RegistryRemoveLast(pollfds, slots, ch.fd);
        pollfds := pollfds[..last];
        slots := slots - {ch.fd};
      } else {
        RegistryRemoveSwap(pollfds, slots, ch.fd);
        ghost var moved := Owner(pollfds[last].fd);
        var channelAtEnd := pollfds[last].fd;
        pollfds := pollfds[idx := pollfds[last]][last := pollfds[idx]];
        if channelAtEnd < 0 {
          channelAtEnd := -channelAtEnd - 1;
        }
        assert channelAtEnd == moved && moved in channels;
        var mc := channels[channelAtEnd];
        ghost var before := slots - {ch.fd};
        assert forall fd :: fd in channels ==> channels[fd].index == before[fd];
        mc.SetIndex(idx);
        pollfds := pollfds[..last];
        slots := before[moved := idx];
        forall fd | fd in channels
          ensures channels[fd].index == slots[fd]
        {
          if fd != moved {
            assert channels[fd].fd != mc.fd;
          }
        }
      }
    }

    /** Stores the events the kernel returned for each slot. */
    method Receive(reported: seq<Mask>)
      requires Valid() && |reported| == |pollfds|
      modifies this`pollfds
      ensures Valid() && |pollfds| == |old(pollfds)|
      ensures forall i :: 0 <= i < |pollfds| ==> pollfds[i] == old(pollfds)[i].(revents := reported[i])
    {
      var p := pollfds;
      pollfds := seq(|p|, i requires 0 <= i < |p| => p[i].(revents := reported[i]));
      RegistryRevents(p, pollfds, slots);
    }

    /** What fillActiveChannels asserts follows from the registry invariant. */
    lemma SlotChannels()
      requires Valid()
      ensures forall i :: 0 <= i < |pollfds| && pollfds[i].fd >= 0 ==>
        pollfds[i].fd in channels && channels[pollfds[i].fd].fd == pollfds[i].fd
      ensures forall i, j :: 0 <= i < j < |pollfds| ==> pollfds[i].fd != pollfds[j].fd
    {
      forall i | 0 <= i < |pollfds| && pollfds[i].fd >= 0
        ensures pollfds[i].fd in channels
      {
        RegistrySlot(pollfds, slots, i);
      }
      RegistryDistinct(pollfds, slots);
    }

    /**
     * poll: the kernel's answer (the events per slot, or a failure) is a
     * parameter; on success it counts the reported slots, and the active
     * channels are exactly those, in array order.
     */
    method Poll(reported: seq<Mask>, failed: bool) returns (active: seq<Channel>)
      requires Valid() && |reported| == |pollfds|
      requires forall i :: 0 <= i < |pollfds| && pollfds[i].fd < 0 ==> reported[i] == {}
      modifies this`pollfds, channels.Values`revents
      ensures Valid()
      ensures failed ==> active == []
      ensures !failed ==> |active| == |Reported(pollfds)| && forall k :: 0 <= k < |active| ==>
        Reported(pollfds)[k].fd in channels && active[k] == channels[Reported(pollfds)[k].fd] &&
        active[k].revents == Reported(pollfds)[k].revents
    {
      Receive(reported);
      SlotChannels();
      var numEvents := if failed then -1 else |Reported(pollfds)|;
      ActiveAll(pollfds, |Reported(pollfds)|);
      if numEvents > 0 {
        active := FillActiveChannels(pollfds, channels, numEvents);
      } else {
        active := [];
      }
    }
  }
}
