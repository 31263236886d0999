// Connector: the client side's outbound connect with automatic retry. The
// socket calls are inputs: the descriptor socket() returns, connect()'s
// result and errno, the SO_ERROR value and the self-connect test result are
// parameters. What the connector asks of the outside world (closing a
// descriptor, scheduling a retry, handing over a connected descriptor,
// queueing resetChannel) is recorded, in order, in the field effects.
module Connectors {
  import opened Errno
  import opened Channels

  datatype States = kDisconnected | kConnecting | kConnected

  const kMaxRetryDelayMs: nat := 30 * 1000
  const kInitRetryDelayMs: nat := 500

  datatype Effect =
    /** sockets::close(fd) */
    | SocketClosed(fd: int)
    /** runAfter(delay, startInLoop) */
    | RetryScheduled(delayMs: nat)
    /** newConnectionCallback_(fd) */
    | NewConnection(fd: int)
    /** queueInLoop(resetChannel) */
    | ResetQueued
    /** runInLoop(startInLoop) / runInLoop(stopInLoop) from another thread */
    | DeferredStart
    | DeferredStop

  /** What connect() does next after ::connect. */
  datatype Reaction = Proceed | Reconnect | GiveUp

  /** The outcomes that mean the connection is made or under way. */
  predicate InProgress(err: int)
  {
    err == 0 || err == EINPROGRESS || err == EINTR || err == EISCONN
  }

  /** The transient failures worth another attempt. */
  predicate Transient(err: int)
  {
    err == EAGAIN || err == EADDRINUSE || err == EADDRNOTAVAIL || err == ECONNREFUSED || err == ENETUNREACH
  }

  /** The saved errno: 0 when ::connect returned 0, errno otherwise. */
  function SavedErrno(ret: int, err: int): int
  {
    if ret == 0 then 0 else err
  }

  function Classify(savedErrno: int): (r: Reaction)
    ensures r == Proceed <==> InProgress(savedErrno)
    ensures r == Reconnect <==> Transient(savedErrno)
    ensures r == GiveUp <==> !InProgress(savedErrno) && !Transient(savedErrno)
  {
    if InProgress(savedErrno) then Proceed
    else if Transient(savedErrno) then Reconnect
    else GiveUp
  }

  /** The delay after k scheduled retries: 500 ms doubled k times, capped at 30 s. */
  function Backoff(k: nat): (d: nat)
    ensures kInitRetryDelayMs <= d <= kMaxRetryDelayMs
  {
    if k == 0 then kInitRetryDelayMs
    else var prev := Backoff(k - 1); if prev * 2 < kMaxRetryDelayMs then prev * 2 else kMaxRetryDelayMs
  }

  function Pow2(k: nat): (r: nat)
    ensures r >= 1
  {
    if k == 0 then 1 else 2 * Pow2(k - 1)
  }

  /** The closed form: min(500 * 2^k, 30000). */
  lemma {:induction false} BackoffClosedForm(k: nat)
    ensures Backoff(k) == if kInitRetryDelayMs * Pow2(k) < kMaxRetryDelayMs
                          then kInitRetryDelayMs * Pow2(k) else kMaxRetryDelayMs
  {
    if k > 0 {
      BackoffClosedForm(k - 1);
      var a := kInitRetryDelayMs * Pow2(k - 1);
      assert kInitRetryDelayMs * Pow2(k) == 2 * a;
    }
  }

  /** Once the cap is reached the delay stays there. */
  lemma {:induction false} BackoffSaturates(k: nat, m: nat)
    requires Backoff(k) == kMaxRetryDelayMs && k <= m
    ensures Backoff(m) == kMaxRetryDelayMs
    decreases m - k
  {
    if k < m {
      BackoffSaturates(k + 1, m);
    }
  }

  class Connector {
    /** The owning loop, by identity. */
    const loop: nat
    /** connect_: whether the user still wants a connection. */
    var connect: bool
    var state: States
    var retryDelayMs: nat
    var channel: Channel?
    /** The retries scheduled since construction or the last restart. */
    ghost var retries: nat
    var effects: seq<Effect>

    /**
     * A connecting connector owns a channel watching for writability; the
     * delay is always the backoff for the retries scheduled so far.
     */
    ghost predicate Valid()
      reads this, channel
    {
      retryDelayMs == Backoff(retries) &&
      (state == kConnecting ==> channel != null && channel.loop == loop && channel.IsWriting())
    }

    constructor (loop: nat)
      ensures Valid() && this.loop == loop
      ensures !connect && state == kDisconnected && retryDelayMs == kInitRetryDelayMs
      ensures channel == null && effects == []
    {
      this.loop := loop;
      connect := false;
      state := kDisconnected;
      retryDelayMs := kInitRetryDelayMs;
      channel := null;
      retries := 0;
      effects := [];
    }

    /** start(): wants a connection, then runs or queues startInLoop. */
    method Start(inLoopThread: bool, sockfd: int, ret: int, err: int)
      requires Valid()
      requires inLoopThread ==> state == kDisconnected
      requires inLoopThread && Classify(SavedErrno(ret, err)) == Proceed ==> channel == null
      modifies this
      ensures Valid() && connect
      ensures !inLoopThread ==> state == old(state) && effects == old(effects) + [DeferredStart]
      ensures inLoopThread ==> Attempted(sockfd, ret, err)
    {
      connect := true;
      if inLoopThread {
        StartInLoop(sockfd, ret, err);
      } else {
        effects := effects + [DeferredStart];
      }
    }

    /** The outcome of one connect() with connect_ set, as startInLoop runs it. */
    twostate predicate Attempted(sockfd: int, ret: int, err: int)
      reads this, channel
    {
      match Classify(SavedErrno(ret, err))
      case Proceed =>
        state == kConnecting && channel != null && fresh(channel) && channel.fd == sockfd &&
        channel.events == kWriteEvent &&
        effects == old(effects) && retries == old(retries) && retryDelayMs == old(retryDelayMs)
      case Reconnect =>
        state == kDisconnected && retries == old(retries) + 1 &&
        effects == old(effects) + [SocketClosed(sockfd), RetryScheduled(old(retryDelayMs))]
      case GiveUp =>
        state == kDisconnected && retries == old(retries) && retryDelayMs == old(retryDelayMs) &&
        effects == old(effects) + [SocketClosed(sockfd)]
    }

    /** startInLoop(): from Disconnected, connects only while connect_ is set. */
    method StartInLoop(sockfd: int, ret: int, err: int)
      requires Valid() && state == kDisconnected
      requires connect && Classify(SavedErrno(ret, err)) == Proceed ==> channel == null
      modifies this
      ensures Valid() && connect == old(connect)
      ensures !old(connect) ==> state == old(state) && effects == old(effects) && retryDelayMs == old(retryDelayMs)
      ensures old(connect) ==> Attempted(sockfd, ret, err)
    {
      if connect {
        Connect(sockfd, ret, err);
      }
    }

    /** connect(): classify the saved errno and act on it. */
    method Connect(sockfd: int, ret: int, err: int)
      requires Valid() && connect && state == kDisconnected
      requires Classify(SavedErrno(ret, err)) == Proceed ==> channel == null
      modifies this
      ensures Valid() && connect
      ensures Attempted(sockfd, ret, err)
    {
      var savedErrno := SavedErrno(ret, err);
      match Classify(savedErrno)
      case Proceed =>
        Connecting(sockfd);
      case Reconnect =>
        Retry(sockfd);
      case GiveUp =>
        effects := effects + [SocketClosed(sockfd)];
    }

    /** restart(): back to the initial delay, wanting a connection, and start again. */
    method Restart(sockfd: int, ret: int, err: int)
      requires Valid()
      requires Classify(SavedErrno(ret, err)) == Proceed ==> channel == null
      modifies this
      ensures Valid() && connect
      ensures Classify(SavedErrno(ret, err)) == Reconnect ==>
        retryDelayMs == Backoff(1) &&
        effects == old(effects) + [SocketClosed(sockfd), RetryScheduled(kInitRetryDelayMs)]
      ensures Classify(SavedErrno(ret, err)) != Reconnect ==> retryDelayMs == kInitRetryDelayMs
      ensures Classify(SavedErrno(ret, err)) == Proceed <==> state == kConnecting
      ensures Classify(SavedErrno(ret, err)) == Proceed ==>
        channel != null && fresh(channel) && channel.fd == sockfd && channel.events == kWriteEvent &&
        retries == 0 && effects == old(effects)
      ensures Classify(SavedErrno(ret, err)) == Reconnect ==> retries == 1
      ensures Classify(SavedErrno(ret, err)) == GiveUp ==>
        retries == 0 && effects == old(effects) + [SocketClosed(sockfd)]
    {
      state := kDisconnected;
      retryDelayMs := kInitRetryDelayMs;
      retries := 0;
      connect := true;
      StartInLoop(sockfd, ret, err);
    }

    /** connecting(fd): a new channel on the socket, armed for writability. */
    method Connecting(sockfd: int)
      requires Valid() && channel == null
      modifies this
      ensures Valid() && state == kConnecting
      ensures channel != null && fresh(channel) && channel.fd == sockfd && channel.loop == loop
      ensures channel.events == kWriteEvent && channel.handlers == Handlers(false, true, false, true)
      ensures channel.requests == [UpdateRequest(kWriteEvent)]
      ensures connect == old(connect) && effects == old(effects)
      ensures retries == old(retries) && retryDelayMs == old(retryDelayMs)
    {
      state := kConnecting;
      var ch := new Channel(loop, sockfd);
      ch.SetWriteCallback(true);
      ch.SetErrorCallback(true);
      ch.EnableWriting();
      assert WithWriting(kNoneEvent) == kWriteEvent;
      channel := ch;
    }

    /** stop(): no longer wants a connection, then runs or queues stopInLoop. */
    method Stop(inLoopThread: bool)
      requires Valid()
      modifies this, channel
      ensures Valid() && !connect
      ensures !inLoopThread ==> state == old(state) && effects == old(effects) + [DeferredStop]
      ensures inLoopThread ==> state == kDisconnected || state == old(state)
      ensures inLoopThread && old(state) == kConnecting ==>
        state == kDisconnected && effects == old(effects) + [ResetQueued, SocketClosed(old(channel.fd))]
      ensures inLoopThread && old(state) != kConnecting ==> effects == old(effects) && state == old(state)
    {
      connect := false;
      if inLoopThread {
        StopInLoop();
      } else {
        effects := effects + [DeferredStop];
      }
    }

    /** stopInLoop(): only a pending connect is abandoned; the socket is closed, with no retry. */
    method StopInLoop()
      requires Valid()
      modifies this, channel
      ensures Valid() && connect == old(connect)
      ensures old(state) == kConnecting ==>
        state == kDisconnected && channel == old(channel) && channel.IsNoneEvent() &&
        effects == old(effects) + [ResetQueued, SocketClosed(old(channel.fd))] +
          (if connect then [RetryScheduled(old(retryDelayMs))] else [])
      ensures old(state) != kConnecting ==>
        state == old(state) && effects == old(effects) && retryDelayMs == old(retryDelayMs)
    {
      if state == kConnecting {
        state := kDisconnected;
        var sockfd := RemoveAndResetChannel();
        Retry(sockfd);
      }
    }

    /** removeAndResetChannel(): the channel leaves the loop; dropping it is queued. */
    method RemoveAndResetChannel() returns (sockfd: int)
      requires channel != null
      modifies this`effects, channel`events, channel`requests
      ensures sockfd == channel.fd && channel.IsNoneEvent()
      ensures channel.requests == old(channel.requests) + [UpdateRequest(kNoneEvent), RemoveRequest]
      ensures effects == old(effects) + [ResetQueued]
    {
      channel.DisableAll();
      channel.Remove();
      sockfd := channel.fd;
      effects := effects + [ResetQueued];
    }

    /** resetChannel(): the queued release of the channel. */
    method ResetChannel()
      requires Valid() && state != kConnecting
      modifies this`channel
      ensures Valid() && channel == null
    {
      channel := null;
    }

    /**
     * handleWrite(): a pending connect resolves. A socket error or a
     * self-connection retries; otherwise the connector is Connected and hands
     * the descriptor over, or closes it if the user stopped meanwhile.
     */
    method HandleWrite(soError: int, selfConnect: bool)
      requires Valid() && (state == kConnecting || state == kDisconnected)
      modifies this, channel
      ensures Valid() && connect == old(connect)
      ensures old(state) == kDisconnected ==> state == kDisconnected && effects == old(effects)
      ensures old(state) == kConnecting && (soError != 0 || selfConnect) ==>
        state == kDisconnected &&
        effects == old(effects) + [ResetQueued, SocketClosed(old(channel.fd))] +
          (if connect then [RetryScheduled(old(retryDelayMs))] else [])
      ensures old(state) == kConnecting && soError == 0 && !selfConnect ==>
        state == kConnected &&
        effects == old(effects) + [ResetQueued,
          if connect then NewConnection(old(channel.fd)) else SocketClosed(old(channel.fd))]
    {
      if state == kConnecting {
        var sockfd := RemoveAndResetChannel();
        if soError != 0 {
          Retry(sockfd);
        } else if selfConnect {
          Retry(sockfd);
        } else {
          state := kConnected;
          if connect {
            effects := effects + [NewConnection(sockfd)];
          } else {
            effects := effects + [SocketClosed(sockfd)];
          }
        }
      }
    }

    /** handleError(): a failed pending connect always goes through retry. */
    method HandleError(soError: int)
      requires Valid() && state == kConnecting
      modifies this, channel
      ensures Valid() && state == kDisconnected && connect == old(connect)
      ensures effects == old(effects) + [ResetQueued, SocketClosed(old(channel.fd))] +
        (if connect then [RetryScheduled(old(retryDelayMs))] else [])
    {
      var sockfd := RemoveAndResetChannel();
      Retry(sockfd);
    }

    /**
     * retry(fd): always closes and disconnects; schedules another attempt
     * after the current delay, and doubles it, only while connect_ is set.
     */
    method Retry(sockfd: int)
      requires retryDelayMs == Backoff(retries)
      modifies this`effects, this`state, this`retryDelayMs, this`retries
      ensures state == kDisconnected && retryDelayMs == Backoff(retries)
      ensures connect ==>
        retries == old(retries) + 1 &&
        effects == old(effects) + [SocketClosed(sockfd), RetryScheduled(old(retryDelayMs))]
      ensures !connect ==>
        retries == old(retries) && retryDelayMs == old(retryDelayMs) &&
        effects == old(effects) + [SocketClosed(sockfd)]
    {
      effects := effects + [SocketClosed(sockfd)];
      state := kDisconnected;
      if connect {
        effects := effects + [RetryScheduled(retryDelayMs)];
        retryDelayMs := if retryDelayMs * 2 < kMaxRetryDelayMs then retryDelayMs * 2 else kMaxRetryDelayMs;
        retries := retries + 1;
      }
    }
  }
}
