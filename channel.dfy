// Channel: one file descriptor's interest mask, the events the poller
// reported for it, and the dispatch of those events to its callbacks.
module Channels {
  import opened Text

  /**
   * The poll(2) event bits a channel deals in. A mask (events_, revents_)
   * is the set of its bits; bitwise or is union, and-not is difference.
   */
  datatype Flag = IN | PRI | OUT | ERR | HUP | NVAL | RDHUP

  type Mask = set<Flag>

  /** The Linux value of each bit; epoll uses the same values. */
  function BitValue(f: Flag): nat
  {
    match f
    case IN => 0x1
    case PRI => 0x2
    case OUT => 0x4
    case ERR => 0x8
    case HUP => 0x10
    case NVAL => 0x20
    case RDHUP => 0x2000
  }

  /** The integer a mask stands for. */
  function MaskValue(m: Mask): nat
  {
    (if IN in m then 0x1 else 0) + (if PRI in m then 0x2 else 0) + (if OUT in m then 0x4 else 0)
    + (if ERR in m then 0x8 else 0) + (if HUP in m then 0x10 else 0) + (if NVAL in m then 0x20 else 0)
    + (if RDHUP in m then 0x2000 else 0)
  }

  /** A mask is zero only when no bit is set, and always fits a positive short. */
  lemma MaskValueRange(m: Mask)
    ensures MaskValue(m) == 0 <==> m == {}
    ensures MaskValue(m) < 0x8000
  {
    if m != {} {
      var f :| f in m;
      assert MaskValue(m) >= BitValue(f);
    }
  }

  const kNoneEvent: Mask := {}
  const kReadEvent: Mask := {IN, PRI}
  const kWriteEvent: Mask := {OUT}

  lemma EventConstants()
    ensures MaskValue(kNoneEvent) == 0 && MaskValue(kReadEvent) == 3 && MaskValue(kWriteEvent) == 4
  {
  }

  // ----- interest-mask updates -----

  /** enableReading: sets both read bits and no other bit. */
  function WithReading(e: Mask): (r: Mask)
    ensures kReadEvent <= r && r - kReadEvent == e - kReadEvent
  {
    e + kReadEvent
  }

  /** enableWriting: sets the write bit and no other bit. */
  function WithWriting(e: Mask): (r: Mask)
    ensures OUT in r && r - kWriteEvent == e - kWriteEvent
  {
    e + kWriteEvent
  }

  /** disableWriting: clears the write bit and no other bit. */
  function WithoutWriting(e: Mask): (r: Mask)
    ensures OUT !in r && r + kWriteEvent == e + kWriteEvent
  {
    e - kWriteEvent
  }

  /** Arming write interest on an unarmed mask and disarming it again restores the mask. */
  lemma WritingToggles(e: Mask)
    ensures OUT !in e ==> WithoutWriting(WithWriting(e)) == e
    ensures WithWriting(WithoutWriting(e)) == WithWriting(e)
  {
  }

  // ----- dispatch -----

  /** The four callbacks a channel can hold, in the order handleEvent may call them. */
  datatype Handler = OnClose | OnError | OnRead | OnWrite

  function Rank(h: Handler): nat
  {
    match h
    case OnClose => 0
    case OnError => 1
    case OnRead => 2
    case OnWrite => 3
  }

  /** Which callbacks are set. */
  datatype Handlers = Handlers(close: bool, error: bool, read: bool, write: bool)

  /** A hang-up without readable data: the close callback's condition. */
  predicate HangUp(revents: Mask)
  {
    HUP in revents && IN !in revents
  }

  /** An error or an invalid descriptor: the error callback's condition. */
  predicate Failed(revents: Mask)
  {
    ERR in revents || NVAL in revents
  }

  /** Readable, urgent, or the peer half-closed: the read callback's condition. */
  predicate Readable(revents: Mask)
  {
    IN in revents || PRI in revents || RDHUP in revents
  }

  /** Writable: the write callback's condition. */
  predicate Writable(revents: Mask)
  {
    OUT in revents
  }

  /** Whether handler x is called for revents, given which callbacks are set. */
  predicate Fires(x: Handler, revents: Mask, h: Handlers)
  {
    match x
    case OnClose => h.close && HangUp(revents)
    case OnError => h.error && Failed(revents)
    case OnRead => h.read && Readable(revents)
    case OnWrite => h.write && Writable(revents)
  }

  predicate Increasing(hs: seq<Handler>)
  {
    forall i, j :: 0 <= i < j < |hs| ==> Rank(hs[i]) < Rank(hs[j])
  }

  /** The call of handler x, if it fires. */
  function Pick(x: Handler, revents: Mask, h: Handlers): (r: seq<Handler>)
    ensures x in r <==> Fires(x, revents, h)
  {
    if Fires(x, revents, h) then [x] else []
  }

  /** The callbacks handleEventWithGuard calls for revents, in call order. */
  function Dispatch(revents: Mask, h: Handlers): seq<Handler>
  {
    Pick(OnClose, revents, h) + Pick(OnError, revents, h) + Pick(OnRead, revents, h) + Pick(OnWrite, revents, h)
  }

  lemma AppendIncreasing(a: seq<Handler>, x: Handler)
    requires Increasing(a)
    requires forall y :: y in a ==> Rank(y) < Rank(x)
    ensures Increasing(a + [x])
  {
    assert forall i :: 0 <= i < |a| ==> (a + [x])[i] == a[i] && a[i] in a;
  }

  lemma PickAppend(a: seq<Handler>, x: Handler, revents: Mask, h: Handlers)
    requires Increasing(a)
    requires forall y :: y in a ==> Rank(y) < Rank(x)
    ensures Increasing(a + Pick(x, revents, h))
    ensures forall y :: y in a + Pick(x, revents, h) ==> Rank(y) <= Rank(x)
  {
    if Fires(x, revents, h) {
      AppendIncreasing(a, x);
    } else {
      assert a + Pick(x, revents, h) == a;
    }
  }

  /**
   * Close fires on a hang-up without readable data, error on ERR or NVAL,
   * read on IN, PRI or RDHUP, write on OUT, each only when set, and in the
   * order close, error, read, write.
   */
  lemma DispatchFires(revents: Mask, h: Handlers)
    ensures OnClose in Dispatch(revents, h) <==> h.close && HangUp(revents)
    ensures OnError in Dispatch(revents, h) <==> h.error && Failed(revents)
    ensures OnRead in Dispatch(revents, h) <==> h.read && Readable(revents)
    ensures OnWrite in Dispatch(revents, h) <==> h.write && Writable(revents)
    ensures Increasing(Dispatch(revents, h))
  {
    var p0 := Pick(OnClose, revents, h);
    var p1 := p0 + Pick(OnError, revents, h);
    var p2 := p1 + Pick(OnRead, revents, h);
    PickAppend([], OnClose, revents, h);
    assert [] + p0 == p0;
    PickAppend(p0, OnError, revents, h);
    PickAppend(p1, OnRead, revents, h);
    PickAppend(p2, OnWrite, revents, h);
  }

  // ----- reventsToString -----

  /** The order in which reventsToString prints the flags. */
  const PrintOrder: seq<Flag> := [IN, PRI, OUT, HUP, RDHUP, ERR, NVAL]

  /** The first letter of each flag's name; no two flags share one. */
  function Initial(f: Flag): char
  {
    match f
    case IN => 'I'
    case PRI => 'P'
    case OUT => 'O'
    case HUP => 'H'
    case RDHUP => 'R'
    case ERR => 'E'
    case NVAL => 'N'
  }

  function FlagName(f: Flag): (name: string)
    ensures |name| >= 2 && name[0] == Initial(f) && name[|name| - 1] == ' '
  {
    match f
    case IN => "IN "
    case PRI => "PRI "
    case OUT => "OUT "
    case HUP => "HUP "
    case RDHUP => "RDHUP "
    case ERR => "ERR "
    case NVAL => "NVAL "
  }

  /** The printed flags for the entries of order that are set in m. */
  function FlagsText(m: Mask, order: seq<Flag>): string
  {
    if order == [] then "" else (if order[0] in m then FlagName(order[0]) else "") + FlagsText(m, order[1..])
  }

  /** reventsToString: the fd, ": ", then each set flag, in print order, followed by a space. */
  function ReventsString(fd: int, revents: Mask): string
  {
    DecimalString(fd) + ": " + FlagsText(revents, PrintOrder)
  }

  /** Reads printed flags back, trying the flags in the given order. */
  function ParseFlags(s: string, order: seq<Flag>): Mask
  {
    if order == [] then {}
    else if |s| >= |FlagName(order[0])| && s[0] == Initial(order[0]) then
      {order[0]} + ParseFlags(s[|FlagName(order[0])|..], order[1..])
    else ParseFlags(s, order[1..])
  }

  predicate NoDuplicates(order: seq<Flag>)
  {
    forall i, j :: 0 <= i < j < |order| ==> order[i] != order[j]
  }

  lemma {:induction false} FlagsTextStart(m: Mask, order: seq<Flag>)
    ensures FlagsText(m, order) != [] ==>
      exists i :: 0 <= i < |order| && FlagsText(m, order)[0] == Initial(order[i])
  {
    if order != [] && order[0] !in m {
      FlagsTextStart(m, order[1..]);
      if FlagsText(m, order) != [] {
        var i :| 0 <= i < |order| - 1 && FlagsText(m, order[1..])[0] == Initial(order[1..][i]);
        assert order[1..][i] == order[i + 1];
      }
    }
  }

  lemma SuffixAfter(p: string, x: string)
    ensures (p + x)[|p|..] == x
  {
  }

  lemma NoDuplicatesTail(order: seq<Flag>)
    requires order != [] && NoDuplicates(order)
    ensures NoDuplicates(order[1..])
    ensures forall i :: 0 <= i < |order| - 1 ==> order[1..][i] != order[0]
  {
    assert forall i :: 0 <= i < |order| - 1 ==> order[1..][i] == order[i + 1];
  }

  /** A flag that is not printed does not disturb the parse of what follows. */
  lemma ParseSkipsAbsent(m: Mask, order: seq<Flag>)
    requires order != [] && NoDuplicates(order)
    ensures ParseFlags(FlagsText(m, order[1..]), order) == ParseFlags(FlagsText(m, order[1..]), order[1..])
  {
    var rest := FlagsText(m, order[1..]);
    FlagsTextStart(m, order[1..]);
    NoDuplicatesTail(order);
    if rest != [] {
      var i :| 0 <= i < |order| - 1 && rest[0] == Initial(order[1..][i]);
      assert order[1..][i] != order[0];
    }
  }

  /** Parsing the printed flags recovers exactly the set flags among those printed. */
  lemma {:induction false} ParseFlagsText(m: Mask, order: seq<Flag>)
    requires NoDuplicates(order)
    ensures forall f :: f in ParseFlags(FlagsText(m, order), order) <==> f in m && f in order
  {
    if order != [] {
      var rest := FlagsText(m, order[1..]);
      NoDuplicatesTail(order);
      assert forall f :: f in order <==> f == order[0] || f in order[1..] by {
        assert order == [order[0]] + order[1..];
      }
      ParseFlagsText(m, order[1..]);
      if order[0] in m {
        SuffixAfter(FlagName(order[0]), rest);
      } else {
        assert FlagsText(m, order) == rest;
        ParseSkipsAbsent(m, order);
      }
    }
  }

  lemma PrintOrderComplete()
    ensures NoDuplicates(PrintOrder)
    ensures forall f: Flag :: f in PrintOrder
  {
    forall f: Flag ensures f in PrintOrder {
      match f
      case IN => assert PrintOrder[0] == f;
      case PRI => assert PrintOrder[1] == f;
      case OUT => assert PrintOrder[2] == f;
      case HUP => assert PrintOrder[3] == f;
      case RDHUP => assert PrintOrder[4] == f;
      case ERR => assert PrintOrder[5] == f;
      case NVAL => assert PrintOrder[6] == f;
    }
  }

  /** Different reported events print differently. */
  lemma ReventsStringInjective(fd: int, a: Mask, b: Mask)
    requires ReventsString(fd, a) == ReventsString(fd, b)
    ensures a == b
  {
    var p := DecimalString(fd) + ": ";
    SuffixAfter(p, FlagsText(a, PrintOrder));
    SuffixAfter(p, FlagsText(b, PrintOrder));
    assert FlagsText(a, PrintOrder) == FlagsText(b, PrintOrder);
    PrintOrderComplete();
    ParseFlagsText(a, PrintOrder);
    ParseFlagsText(b, PrintOrder);
    assert forall f :: f in a <==> f in b;
  }

  /** The callbacks handleEvent runs: none when the channel is tied and its owner is gone. */
  function Delivered(tied: bool, ownerAlive: bool, revents: Mask, h: Handlers): (r: seq<Handler>)
    ensures !tied || ownerAlive ==> r == Dispatch(revents, h)
    ensures tied && !ownerAlive ==> r == []
  {
    if !tied || ownerAlive then Dispatch(revents, h) else []
  }

  /** What a channel asks of its owner loop: update() or remove(). */
  datatype Request = UpdateRequest(events: Mask) | RemoveRequest

  class Channel {
    /** The owning loop, by identity. */
    const loop: nat
    const fd: int
    /** events_: the interest mask. */
    var events: Mask
    /** revents_: what the poller reported. */
    var revents: Mask
    /** index_: the poller's bookkeeping slot. */
    var index: int
    var logHup: bool
    var tied: bool
    var eventHandling: bool
    var handlers: Handlers
    /** The update()/remove() calls made on the owner loop, oldest first. */
    var requests: seq<Request>
    /** The callbacks invoked so far, oldest first. */
    var fired: seq<Handler>

    constructor (loop: nat, fd: int)
      ensures this.loop == loop && this.fd == fd
      ensures events == kNoneEvent && revents == {} && index == -1
      ensures logHup && !tied && !eventHandling
      ensures handlers == Handlers(false, false, false, false)
      ensures requests == [] && fired == []
    {
      this.loop := loop;
      this.fd := fd;
      events := kNoneEvent;
      revents := {};
      index := -1;
      logHup := true;
      tied := false;
      eventHandling := false;
      handlers := Handlers(false, false, false, false);
      requests := [];
      fired := [];
    }

    method SetReadCallback(present: bool)
      modifies this`handlers
      ensures handlers == old(handlers).(read := present)
    {
      handlers := handlers.(read := present);
    }

    method SetWriteCallback(present: bool)
      modifies this`handlers
      ensures handlers == old(handlers).(write := present)
    {
      handlers := handlers.(write := present);
    }

    method SetCloseCallback(present: bool)
      modifies this`handlers
      ensures handlers == old(handlers).(close := present)
    {
      handlers := handlers.(close := present);
    }

    method SetErrorCallback(present: bool)
      modifies this`handlers
      ensures handlers == old(handlers).(error := present)
    {
      handlers := handlers.(error := present);
    }

    /** tie(obj): from now on events are dispatched only while the owner lives. */
    method Tie()
      modifies this`tied
      ensures tied
    {
      tied := true;
    }

    method DoNotLogHup()
      modifies this`logHup
      ensures !logHup
    {
      logHup := false;
    }

    predicate IsNoneEvent()
      reads this`events
    {
      events == kNoneEvent
    }

    predicate IsWriting()
      reads this`events
    {
      OUT in events
    }

    /** The callbacks the next handleEvent will run, given whether the tie resolves. */
    function Owed(ownerAlive: bool): seq<Handler>
      reads this`tied, this`revents, this`handlers
    {
      Delivered(tied, ownerAlive, revents, handlers)
    }

    method SetRevents(revt: Mask)
      modifies this`revents
      ensures revents == revt
    {
      revents := revt;
    }

    method SetIndex(idx: int)
      modifies this`index
      ensures index == idx
    {
      index := idx;
    }

    /** update(): hand the current interest mask to the owning loop. */
    method Update()
      modifies this`requests
      ensures requests == old(requests) + [UpdateRequest(events)]
    {
      requests := requests + [UpdateRequest(events)];
    }

    method EnableReading()
      modifies this`events, this`requests
      ensures events == WithReading(old(events))
      ensures requests == old(requests) + [UpdateRequest(events)]
    {
      events := WithReading(events);
      Update();
    }

    method EnableWriting()
      modifies this`events, this`requests
      ensures events == WithWriting(old(events)) && IsWriting()
      ensures requests == old(requests) + [UpdateRequest(events)]
    {
      events := WithWriting(events);
      Update();
    }

    method DisableWriting()
      modifies this`events, this`requests
      ensures events == WithoutWriting(old(events)) && !IsWriting()
      ensures requests == old(requests) + [UpdateRequest(events)]
    {
      events := WithoutWriting(events);
      Update();
    }

    method DisableAll()
      modifies this`events, this`requests
      ensures IsNoneEvent() && !IsWriting()
      ensures requests == old(requests) + [UpdateRequest(kNoneEvent)]
    {
      events := kNoneEvent;
      Update();
    }

    /** remove(): only a channel with no interest may leave its loop. */
    method Remove()
      requires IsNoneEvent()
      modifies this`requests
      ensures requests == old(requests) + [RemoveRequest]
    {
      requests := requests + [RemoveRequest];
    }

    /**
     * handleEvent: a tied channel whose owner is gone (the weak tie does
     * not resolve, ownerAlive false) skips the event; otherwise dispatch.
     */
    method HandleEvent(ownerAlive: bool)
      modifies this`eventHandling, this`fired
      ensures fired == old(fired) + Owed(ownerAlive)
      ensures eventHandling == (if !tied || ownerAlive then false else old(eventHandling))
    {
      if tied {
        if ownerAlive {
          HandleEventWithGuard();
        }
      } else {
        HandleEventWithGuard();
      }
    }

    method HandleEventWithGuard()
      modifies this`eventHandling, this`fired
      ensures !eventHandling
      ensures fired == old(fired) + Dispatch(revents, handlers)
    {
      eventHandling := true;
      var r, h := revents, handlers;
      var calls: seq<Handler> := [];
      if HangUp(r) && h.close {
        calls := calls + [OnClose];
      }
      ghost var c0 := calls;
      assert c0 == Pick(OnClose, r, h);
      if Failed(r) && h.error {
        calls := calls + [OnError];
      }
      ghost var c1 := calls;
      assert c1 == c0 + Pick(OnError, r, h);
      if Readable(r) && h.read {
        calls := calls + [OnRead];
      }
      ghost var c2 := calls;
      assert c2 == c1 + Pick(OnRead, r, h);
      if Writable(r) && h.write {
        calls := calls + [OnWrite];
      }
      assert calls == c2 + Pick(OnWrite, r, h);
      fired := fired + calls;
      eventHandling := false;
    }

    function ReventsToString(): string
      reads this`revents
    {
      ReventsString(fd, revents)
    }
  }
}
