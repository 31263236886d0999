// TcpConnection's sequential logic: the four-state life cycle, sending with a
// direct write or through the output buffer, the high-water-mark rule, the
// write-interest toggling around the buffer and the deferred half-close.
//
// The socket calls are inputs: the result of write() and errno are method
// parameters, as are the result of the read into the input buffer and the
// SO_ERROR value. What the connection asks of the outside world (callbacks
// queued on or run by its loop, shutdown of the write half) is recorded, in
// order, in the field effects; the bytes accepted by write() are recorded in
// the field written.
module TcpConnections {
  import opened Bytes
  import opened Errno
  import opened Channels
  import NetBuffer
  import StringPieces

  datatype StateE = kDisconnected | kConnecting | kConnected | kDisconnecting

  /** The default high-water mark, 64 MiB. */
  const kDefaultHighWaterMark: nat := 64 * 1024 * 1024

  datatype Effect =
    /** loop_->queueInLoop(writeCompleteCallback_) */
    | QueuedWriteComplete
    /** loop_->queueInLoop(highWaterMarkCallback_, size) */
    | QueuedHighWater(size: nat)
    /** runInLoop(sendInLoop, message) from another thread: the message is queued */
    | DeferredSend(message: seq<byte>)
    /** runInLoop(shutdownInLoop) from another thread */
    | DeferredShutdown
    /** connectionCallback_, reporting connected() at the time of the call */
    | ConnectionCallback(connected: bool)
    /** messageCallback_ after a read of n bytes */
    | MessageCallback(n: nat)
    /** closeCallback_ (the server's removeConnection) */
    | CloseCallback
    /** handleError: the SO_ERROR value it reports */
    | ErrorReported(err: int)
    /** socket_->shutdownWrite() */
    | ShutdownWrite

  /** What one sendInLoop decides: bytes written now, bytes buffered, callbacks queued. */
  datatype SendPlan = SendPlan(written: nat, buffered: seq<byte>, queued: seq<Effect>)

  /**
   * sendInLoop on a live connection. direct says whether the write is tried
   * at once (write interest off and nothing buffered); wrote and err are
   * write()'s result and errno; oldLen is the buffered byte count.
   */
  function PlanSend(direct: bool, oldLen: nat, data: seq<byte>, wrote: int, err: int,
                    mark: nat, hasWriteComplete: bool, hasHighWater: bool): (p: SendPlan)
    requires wrote <= |data|
    ensures p.written <= |data|
  {
    var k := if direct && wrote >= 0 then wrote else 0;
    var broken := direct && wrote < 0 && err != EWOULDBLOCK && err == EPIPE;
    var remaining := |data| - k;
    var complete := if direct && wrote >= 0 && remaining == 0 && hasWriteComplete then [QueuedWriteComplete] else [];
    if broken || remaining == 0 then SendPlan(k, [], complete)
    else
      SendPlan(k, data[k..],
        complete + (if oldLen + remaining >= mark && oldLen < mark && hasHighWater
                    then [QueuedHighWater(oldLen + remaining)] else []))
  }

  /** A write that fails with EPIPE: the only case in which data is dropped. */
  predicate Broken(direct: bool, wrote: int, err: int)
  {
    direct && wrote < 0 && err == EPIPE
  }

  /** The buffer grows from oldLen past the mark: oldLen < mark <= oldLen + added. */
  predicate CrossesHighWater(oldLen: nat, added: nat, mark: nat)
  {
    oldLen < mark <= oldLen + added
  }

  /**
   * Nothing is lost or reordered: the bytes written now followed by the bytes
   * buffered are exactly the payload, unless the write broke the pipe, in
   * which case nothing is written or buffered.
   */
  lemma SendConserves(direct: bool, oldLen: nat, data: seq<byte>, wrote: int, err: int,
                      mark: nat, wc: bool, hw: bool)
    requires wrote <= |data|
    ensures var p := PlanSend(direct, oldLen, data, wrote, err, mark, wc, hw);
      if Broken(direct, wrote, err) then p.written == 0 && p.buffered == []
      else data[..p.written] + p.buffered == data
  {
    var p := PlanSend(direct, oldLen, data, wrote, err, mark, wc, hw);
    if !Broken(direct, wrote, err) {
      assert data[..p.written] + data[p.written..] == data;
    }
  }

  /** Only a direct attempt writes anything; otherwise the whole payload is buffered. */
  lemma SendIndirectBuffersAll(oldLen: nat, data: seq<byte>, wrote: int, err: int,
                               mark: nat, wc: bool, hw: bool)
    requires wrote <= |data|
    ensures var p := PlanSend(false, oldLen, data, wrote, err, mark, wc, hw);
      p.written == 0 && p.buffered == data
  {
  }

  /**
   * The callbacks sendInLoop queues: write-complete exactly when a direct write
   * took everything, high-water exactly when the buffered bytes cross the mark.
   */
  lemma SendQueues(direct: bool, oldLen: nat, data: seq<byte>, wrote: int, err: int,
                   mark: nat, wc: bool, hw: bool)
    requires wrote <= |data|
    ensures var p := PlanSend(direct, oldLen, data, wrote, err, mark, wc, hw);
      (QueuedWriteComplete in p.queued <==> direct && wrote == |data| && wc) &&
      ((exists n :: QueuedHighWater(n) in p.queued) <==>
        hw && p.buffered != [] && CrossesHighWater(oldLen, |p.buffered|, mark)) &&
      (forall n :: QueuedHighWater(n) in p.queued ==> n == oldLen + |p.buffered|)
  {
    var p := PlanSend(direct, oldLen, data, wrote, err, mark, wc, hw);
    if hw && p.buffered != [] && CrossesHighWater(oldLen, |p.buffered|, mark) {
      assert QueuedHighWater(oldLen + |p.buffered|) in p.queued;
    }
  }

  /** After a crossing the buffer is at or above the mark, so more appends cannot cross again. */
  lemma HighWaterOncePerCrossing(oldLen: nat, added: nat, more: nat, mark: nat)
    requires CrossesHighWater(oldLen, added, mark)
    ensures !CrossesHighWater(oldLen + added, more, mark)
  {
  }

  /**
   * Combined with SendInLoop's contract: the bytes written so far followed by
   * the buffered ones grow by exactly the payload, since a direct write only
   * happens with an empty buffer.
   */
  lemma SendStream(w: seq<byte>, b: seq<byte>, direct: bool, oldLen: nat, data: seq<byte>, wrote: int, err: int,
                   mark: nat, wc: bool, hw: bool)
    requires wrote <= |data| && (direct ==> b == [])
    ensures var p := PlanSend(direct, oldLen, data, wrote, err, mark, wc, hw);
      !Broken(direct, wrote, err) ==> (w + data[..p.written]) + (b + p.buffered) == (w + b) + data
  {
    var p := PlanSend(direct, oldLen, data, wrote, err, mark, wc, hw);
    SendConserves(direct, oldLen, data, wrote, err, mark, wc, hw);
    if !Broken(direct, wrote, err) && direct {
      assert b + p.buffered == p.buffered;
    }
  }

  class TcpConnection {
    /** The owning loop, by identity. */
    const loop: nat
    const name: string
    var state: StateE
    const channel: Channel
    const outputBuffer: NetBuffer.Buffer
    var highWaterMark: nat
    /** Whether writeCompleteCallback_ / highWaterMarkCallback_ are set. */
    var hasWriteComplete: bool
    var hasHighWater: bool
    /** What the connection has asked of its loop, user and socket, oldest first. */
    var effects: seq<Effect>
    /** The bytes the socket accepted, in order. */
    var written: seq<byte>

    /**
     * Write interest is on exactly while bytes wait in the output buffer, until
     * the connection is down; a connection that is down has no interest left.
     */
    ghost predicate Valid()
      reads this, channel, outputBuffer
    {
      outputBuffer.Valid() &&
      (state != kDisconnected ==> (channel.IsWriting() <==> outputBuffer.ReadableBytes() > 0)) &&
      (state == kDisconnected ==> channel.IsNoneEvent())
    }

    /** The bytes still to be written. */
    function Pending(): seq<byte>
      reads this, outputBuffer, outputBuffer.buffer
      requires outputBuffer.Valid()
    {
      outputBuffer.Readable()
    }

    /** Everything handed to the connection for sending, in order: written, then pending. */
    function Stream(): seq<byte>
      reads this, outputBuffer, outputBuffer.buffer
      requires outputBuffer.Valid()
    {
      written + Pending()
    }

    predicate Connected()
      reads this
    {
      state == kConnected
    }

    /** A direct write is tried: write interest is off and nothing is buffered. */
    predicate Idle()
      reads this, channel, outputBuffer
      requires outputBuffer.Valid()
    {
      !channel.IsWriting() && outputBuffer.ReadableBytes() == 0
    }

    /** sendInLoop's plan for data, given the current buffer and interest. */
    function Plan(data: seq<byte>, wrote: int, err: int): SendPlan
      reads this, channel, outputBuffer
      requires outputBuffer.Valid() && wrote <= |data|
    {
      PlanSend(Idle(), outputBuffer.ReadableBytes(),
               data, wrote, err, highWaterMark, hasWriteComplete, hasHighWater)
    }

    constructor (loop: nat, name: string, sockfd: int)
      ensures this.loop == loop && this.name == name && state == kConnecting
      ensures Valid() && fresh(channel) && fresh(outputBuffer) && fresh(outputBuffer.buffer)
      ensures channel.loop == loop && channel.fd == sockfd && channel.IsNoneEvent()
      ensures channel.handlers == Handlers(true, true, true, true)
      ensures highWaterMark == kDefaultHighWaterMark && !hasWriteComplete && !hasHighWater
      ensures Pending() == [] && effects == [] && written == []
    {
      this.loop := loop;
      this.name := name;
      state := kConnecting;
      var ch := new Channel(loop, sockfd);
      channel := ch;
      outputBuffer := new NetBuffer.Buffer();
      highWaterMark := kDefaultHighWaterMark;
      hasWriteComplete, hasHighWater := false, false;
      effects, written := [], [];
      new;
      ch.SetReadCallback(true);
      ch.SetWriteCallback(true);
      ch.SetCloseCallback(true);
      ch.SetErrorCallback(true);
    }

    method SetWriteCompleteCallback(present: bool)
      modifies this`hasWriteComplete
      ensures hasWriteComplete == present
    {
      hasWriteComplete := present;
    }

    method SetHighWaterMarkCallback(present: bool, mark: nat)
      modifies this`hasHighWater, this`highWaterMark
      ensures hasHighWater == present && highWaterMark == mark
    {
      hasHighWater := present;
      highWaterMark := mark;
    }

    /**
     * sendInLoop(data, len): nothing once kDisconnected; otherwise the plan is
     * carried out and write interest is armed if bytes were buffered.
     */
    method SendInLoop(data: seq<byte>, wrote: int, err: int)
      requires Valid() && wrote <= |data|
      modifies this`effects, this`written, outputBuffer, outputBuffer.buffer, channel`events, channel`requests
      ensures Valid()
      ensures old(state) == kDisconnected ==>
        effects == old(effects) && written == old(written) && Pending() == old(Pending()) &&
        channel.events == old(channel.events) && channel.requests == old(channel.requests)
      ensures old(state) != kDisconnected ==>
        var p := old(Plan(data, wrote, err));
        written == old(written) + data[..p.written] &&
        Pending() == old(Pending()) + p.buffered &&
        effects == old(effects) + p.queued &&
        channel.events == (if p.buffered != [] then WithWriting(old(channel.events)) else old(channel.events)) &&
        channel.requests == old(channel.requests) +
          (if p.buffered != [] && !old(channel.IsWriting()) then [UpdateRequest(channel.events)] else [])
    {
      if state == kDisconnected {
        return;
      }
      ghost var p := Plan(data, wrote, err);
      ghost var e0, w0 := effects, written;
      var nwrote: nat := 0;
      var remaining: nat := |data|;
      var error := false;
      if Idle() {
        if wrote >= 0 {
          nwrote := wrote;
          remaining := |data| - wrote;
          written := written + data[..wrote];
          if remaining == 0 && hasWriteComplete {
            effects := effects + [QueuedWriteComplete];
          }
        } else if err != EWOULDBLOCK {
          if err == EPIPE {
            error := true;
          }
        }
      }
      assert nwrote == p.written && remaining == |data| - nwrote && written == w0 + data[..nwrote];
      assert error || remaining == 0 ==> p.buffered == [] && effects == e0 + p.queued;
      if !error && remaining > 0 {
        var oldLen := outputBuffer.ReadableBytes();
        if oldLen + remaining >= highWaterMark && oldLen < highWaterMark && hasHighWater {
          effects := effects + [QueuedHighWater(oldLen + remaining)];
        }
        assert effects == e0 + p.queued && p.buffered == data[nwrote..];
        HandOver(data[nwrote..]);
      }
    }

    /** The tail of sendInLoop: buffer the rest and arm write interest. */
    method HandOver(rest: seq<byte>)
      requires outputBuffer.Valid() && rest != []
      modifies outputBuffer, outputBuffer.buffer, channel`events, channel`requests
      ensures outputBuffer.Valid() && Pending() == old(Pending()) + rest
      ensures channel.events == WithWriting(old(channel.events)) && channel.IsWriting()
      ensures channel.requests == old(channel.requests) +
        (if !old(channel.IsWriting()) then [UpdateRequest(channel.events)] else [])
    {
      outputBuffer.Append(rest);
      if !channel.IsWriting() {
        channel.EnableWriting();
      } else {
        assert OUT in channel.events;
        assert WithWriting(channel.events) == channel.events;
      }
    }

    /** send(data, len) and send(StringPiece): only while kConnected; off the loop thread the send is queued. */
    method Send(data: seq<byte>, inLoopThread: bool, wrote: int, err: int)
      requires Valid() && wrote <= |data|
      modifies this`effects, this`written, outputBuffer, outputBuffer.buffer, channel`events, channel`requests
      ensures Valid()
      ensures old(state) != kConnected ==>
        effects == old(effects) && written == old(written) && Pending() == old(Pending()) &&
        channel.events == old(channel.events)
      ensures old(state) == kConnected && !inLoopThread ==>
        effects == old(effects) + [DeferredSend(data)] && written == old(written) &&
        Pending() == old(Pending()) && channel.events == old(channel.events)
      ensures old(state) == kConnected && inLoopThread ==>
        var p := old(Plan(data, wrote, err));
        written == old(written) + data[..p.written] &&
        Pending() == old(Pending()) + p.buffered &&
        effects == old(effects) + p.queued &&
        channel.events == (if p.buffered != [] then WithWriting(old(channel.events)) else old(channel.events))
    {
      if state == kConnected {
        if inLoopThread {
          SendInLoop(data, wrote, err);
        } else {
          effects := effects + [DeferredSend(data)];
        }
      }
    }

    /** send(const StringPiece&): the viewed bytes. */
    method SendPiece(message: StringPieces.StringPiece, inLoopThread: bool, wrote: int, err: int)
      requires Valid() && message.Valid() && wrote <= message.length
      modifies this`effects, this`written, outputBuffer, outputBuffer.buffer, channel`events, channel`requests
      ensures Valid()
      ensures old(state) != kConnected ==>
        effects == old(effects) && written == old(written) && Pending() == old(Pending())
      ensures old(state) == kConnected && !inLoopThread ==>
        effects == old(effects) + [DeferredSend(message.View())] && Pending() == old(Pending())
      ensures old(state) == kConnected && inLoopThread ==>
        var p := old(Plan(message.View(), wrote, err));
        written == old(written) + message.View()[..p.written] &&
        Pending() == old(Pending()) + p.buffered && effects == old(effects) + p.queued
    {
      Send(message.View(), inLoopThread, wrote, err);
    }

    /**
     * send(Buffer*): while kConnected, the buffer's readable bytes are sent (or
     * queued) and the buffer is emptied.
     */
    method SendBuffer(buf: NetBuffer.Buffer, inLoopThread: bool, wrote: int, err: int)
      requires Valid() && buf.Valid() && buf != outputBuffer && buf.buffer != outputBuffer.buffer
      requires wrote <= buf.ReadableBytes()
      modifies this`effects, this`written, outputBuffer, outputBuffer.buffer, channel`events, channel`requests, buf
      ensures Valid() && buf.Valid()
      ensures old(state) != kConnected ==>
        effects == old(effects) && written == old(written) && Pending() == old(Pending()) &&
        buf.Readable() == old(buf.Readable())
      ensures old(state) == kConnected ==> buf.Readable() == []
      ensures old(state) == kConnected && !inLoopThread ==>
        effects == old(effects) + [DeferredSend(old(buf.Readable()))] && Pending() == old(Pending())
      ensures old(state) == kConnected && inLoopThread ==>
        var p := old(Plan(buf.Readable(), wrote, err));
        written == old(written) + old(buf.Readable())[..p.written] &&
        Pending() == old(Pending()) + p.buffered && effects == old(effects) + p.queued
    {
      if state == kConnected {
        if inLoopThread {
          var data := buf.Readable();
          SendInLoop(data, wrote, err);
          buf.RetrieveAll();
        } else {
          var message := buf.RetrieveAllAsString();
          effects := effects + [DeferredSend(message)];
        }
      }
    }

    /** shutdown(): kConnected becomes kDisconnecting and the half-close is run or queued. */
    method Shutdown(inLoopThread: bool)
      requires Valid()
      modifies this`state, this`effects
      ensures Valid()
      ensures state == (if old(state) == kConnected then kDisconnecting else old(state))
      ensures effects == old(effects) +
        (if old(state) != kConnected then []
         else if !inLoopThread then [DeferredShutdown]
         else if channel.IsWriting() then [] else [ShutdownWrite])
    {
      if state == kConnected {
        state := kDisconnecting;
        if inLoopThread {
          ShutdownInLoop();
        } else {
          effects := effects + [DeferredShutdown];
        }
      }
    }

    /** shutdownInLoop(): the write half closes only once nothing waits to be written. */
    method ShutdownInLoop()
      modifies this`effects
      ensures effects == old(effects) + (if channel.IsWriting() then [] else [ShutdownWrite])
    {
      if !channel.IsWriting() {
        effects := effects + [ShutdownWrite];
      }
    }

    /** connectEstablished(): kConnecting becomes kConnected, the channel is tied and reads. */
    method ConnectEstablished()
      requires Valid() && state == kConnecting
      modifies this`state, this`effects, channel`tied, channel`events, channel`requests
      ensures Valid() && state == kConnected && channel.tied
      ensures channel.events == WithReading(old(channel.events))
      ensures channel.requests == old(channel.requests) + [UpdateRequest(channel.events)]
      ensures effects == old(effects) + [ConnectionCallback(true)]
    {
      state := kConnected;
      channel.Tie();
      channel.EnableReading();
      assert OUT !in kReadEvent;
      effects := effects + [ConnectionCallback(true)];
    }

    /**
     * connectDestroyed(): a still kConnected connection goes down and reports it;
     * in every case the channel leaves the loop, which needs no interest left.
     */
    method ConnectDestroyed()
      requires Valid() && (state == kConnected || channel.IsNoneEvent())
      modifies this`state, this`effects, channel`events, channel`requests
      ensures Valid() && state == (if old(state) == kConnected then kDisconnected else old(state))
      ensures channel.IsNoneEvent()
      ensures channel.requests == old(channel.requests) +
        (if old(state) == kConnected then [UpdateRequest(kNoneEvent), RemoveRequest] else [RemoveRequest])
      ensures effects == old(effects) + (if old(state) == kConnected then [ConnectionCallback(false)] else [])
    {
      if state == kConnected {
        state := kDisconnected;
        channel.DisableAll();
        effects := effects + [ConnectionCallback(false)];
      }
      channel.Remove();
    }

    /** handleRead: n bytes read; data goes to the user, end of file closes, an error is reported. */
    method HandleRead(n: int, soError: int)
      requires Valid()
      requires n == 0 ==> state == kConnected || state == kDisconnecting
      modifies this`state, this`effects, channel`events, channel`requests
      ensures Valid()
      ensures n > 0 ==> state == old(state) && effects == old(effects) + [MessageCallback(n)]
      ensures n == 0 ==> state == kDisconnected && channel.IsNoneEvent()
      ensures n == 0 ==> effects == old(effects) + [ConnectionCallback(false), CloseCallback]
      ensures n < 0 ==> state == old(state) && effects == old(effects) + [ErrorReported(soError)]
      ensures n != 0 ==> channel.events == old(channel.events)
    {
      if n > 0 {
        effects := effects + [MessageCallback(n)];
      } else if n == 0 {
        HandleClose();
      } else {
        HandleError(soError);
      }
    }

    /**
     * handleWrite: with write interest on, write() took wrote bytes of the
     * buffer; a drained buffer turns interest off, queues write-complete and
     * finishes a pending half-close.
     */
    method HandleWrite(wrote: int)
      requires Valid() && wrote <= outputBuffer.ReadableBytes()
      modifies this`effects, this`written, outputBuffer, channel`events, channel`requests
      ensures Valid() && Stream() == old(Stream())
      ensures !old(channel.IsWriting()) || wrote <= 0 ==>
        written == old(written) && Pending() == old(Pending()) && effects == old(effects) &&
        channel.events == old(channel.events)
      ensures old(channel.IsWriting()) && wrote > 0 ==>
        written == old(written) + old(Pending())[..wrote] && Pending() == old(Pending())[wrote..]
      ensures old(channel.IsWriting()) && wrote > 0 && Pending() != [] ==>
        effects == old(effects) && channel.events == old(channel.events)
      ensures old(channel.IsWriting()) && wrote > 0 && Pending() == [] ==>
        channel.events == WithoutWriting(old(channel.events)) &&
        effects == old(effects) + (if hasWriteComplete then [QueuedWriteComplete] else []) +
          (if state == kDisconnecting then [ShutdownWrite] else [])
    {
      if channel.IsWriting() {
        if wrote > 0 {
          ghost var before := Pending();
          written := written + outputBuffer.Readable()[..wrote];
          outputBuffer.Retrieve(wrote);
          assert before[..wrote] + before[wrote..] == before;
          if outputBuffer.ReadableBytes() == 0 {
            channel.DisableWriting();
            if hasWriteComplete {
              effects := effects + [QueuedWriteComplete];
            }
            ghost var e := effects;
            if state == kDisconnecting {
              ShutdownInLoop();
            }
            assert effects == e + (if state == kDisconnecting then [ShutdownWrite] else []);
          }
        }
      }
    }

    /** handleClose(): from kConnected or kDisconnecting to kDisconnected, no interest, both callbacks. */
    method HandleClose()
      requires Valid() && (state == kConnected || state == kDisconnecting)
      modifies this`state, this`effects, channel`events, channel`requests
      ensures Valid() && state == kDisconnected && channel.IsNoneEvent()
      ensures channel.requests == old(channel.requests) + [UpdateRequest(kNoneEvent)]
      ensures effects == old(effects) + [ConnectionCallback(false), CloseCallback]
    {
      state := kDisconnected;
      channel.DisableAll();
      effects := effects + [ConnectionCallback(false)];
      effects := effects + [CloseCallback];
    }

    /** handleError(): reports the socket's pending error (getSocketError's value). */
    method HandleError(soError: int)
      modifies this`effects
      ensures effects == old(effects) + [ErrorReported(soError)]
    {
      effects := effects + [ErrorReported(soError)];
    }
  }
}
