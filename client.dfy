/** One WebSocket client (internal/services/client.go): a bounded queue of
    outgoing messages, a close flag, and a fixed-window message counter.
    The queue stands for the buffered `send` channel; the write pump's
    receive is `NextToWrite`. Times are clock readings in milliseconds. */
module Clients {
  import opened ServerMetrics

  /** internal/config/limits.go. */
  const ClientSendBufferSize: int := 256
  const MaxMessagesPerSecond: int := 10
  const RateLimitWindow: int := 1000

  /** What the write pump receives from the `send` channel. */
  datatype Received<M> = Message(m: M) | ChannelClosed | NothingQueued

  class Client<M> {
    const roomId: string
    const participantId: string
    const metrics: Metrics
    var send: seq<M>
    var closed: bool
    var messageCount: int
    var lastReset: int

    ghost predicate Valid()
      reads this, metrics
    {
      |send| <= ClientSendBufferSize && metrics.Valid()
    }

    /** `NewClient`: open, nothing queued, the window starting now. */
    constructor (roomId: string, participantId: string, metrics: Metrics, now: int)
      requires metrics.Valid()
      ensures Valid()
      ensures this.roomId == roomId && this.participantId == participantId && this.metrics == metrics
      ensures send == [] && !closed && messageCount == 0 && lastReset == now
    {
      this.roomId := roomId;
      this.participantId := participantId;
      this.metrics := metrics;
      send := [];
      closed := false;
      messageCount := 0;
      lastReset := now;
    }

    /** `checkRateLimit`: after more than a window since the last reset the
        count starts again from zero; the message is counted, and allowed
        while the count is at most `MaxMessagesPerSecond`. */
    method CheckRateLimit(now: int) returns (allowed: bool)
      modifies this
      ensures now - old(lastReset) > RateLimitWindow ==> messageCount == 1 && lastReset == now
      ensures now - old(lastReset) <= RateLimitWindow ==> messageCount == old(messageCount) + 1 && lastReset == old(lastReset)
      ensures allowed <==> messageCount <= MaxMessagesPerSecond
      ensures send == old(send) && closed == old(closed)
    {
      if now - lastReset > RateLimitWindow {
        messageCount := 0;
        lastReset := now;
      }
      messageCount := messageCount + 1;
      allowed := messageCount <= MaxMessagesPerSecond;
    }

    /** `Send`: refused on a closed client; queued while the buffer has
        room; on a full buffer the client counts a broadcast error, is
        closed and the message is dropped. */
    method Send(message: M) returns (ok: bool)
      requires Valid()
      modifies this, metrics
      ensures Valid()
      ensures old(closed) ==> !ok && send == old(send) && closed && metrics.Snapshot() == old(metrics.Snapshot())
      ensures !old(closed) && |old(send)| < ClientSendBufferSize ==>
        ok && send == old(send) + [message] && !closed && metrics.Snapshot() == old(metrics.Snapshot())
      ensures !old(closed) && |old(send)| == ClientSendBufferSize ==>
        !ok && send == old(send) && closed
        && metrics.Snapshot() == old(metrics.Snapshot()).(broadcastErrors := old(metrics.broadcastErrors) + 1)
      ensures messageCount == old(messageCount) && lastReset == old(lastReset)
    {
      if closed {
        return false;
      }
      if |send| < ClientSendBufferSize {
        send := send + [message];
        return true;
      }
      metrics.IncrementBroadcastErrors();
      Close();
      return false;
    }

    /** `Close`: marks the client closed; a second call does nothing.
        Messages already queued stay for the write pump to drain. */
    method Close()
      modifies this
      ensures closed
      ensures send == old(send) && messageCount == old(messageCount) && lastReset == old(lastReset)
    {
      if closed {
        return;
      }
      closed := true;
    }

    /** The write pump's receive: queued messages come out in the order they
        were sent; once the queue is empty a closed client's channel reports
        that it is closed. */
    method NextToWrite() returns (r: Received<M>)
      requires Valid()
      modifies this
      ensures Valid()
      ensures |old(send)| > 0 ==> r == Message(old(send)[0]) && send == old(send)[1..]
      ensures |old(send)| == 0 ==> send == [] && r == (if closed then ChannelClosed else NothingQueued)
      ensures closed == old(closed) && messageCount == old(messageCount) && lastReset == old(lastReset)
    {
      if |send| > 0 {
        r := Message(send[0]);
        send := send[1..];
      } else if closed {
        r := ChannelClosed;
      } else {
        r := NothingQueued;
      }
    }
  }
}
