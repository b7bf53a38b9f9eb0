/** Durable handoffs: one stream and one fixed consumer per recipient and session. */
module Handoff {
  import opened Wrappers
  import opened MemoryTransport
  import opened SessionKeys

  datatype Message = Message(sender: string, recipient: RoleRef, payload: string, teamSession: Option<string>)

  datatype Codec = Codec(enc: Message -> string, dec: string -> Option<Message>)

  datatype Unreadable = Unreadable

  /** A message delivered but not yet acknowledged, with what acknowledging it takes. */
  datatype Delivered = Delivered(message: Message, stream: string, msgId: string)

  const CONSUMER_NAME := "primary"

  method SendHandoff(t: InMemoryTransport, c: Codec, m: Message)
    modifies t`streams
    ensures
      var stream := StreamFor(m.teamSession, m.recipient);
      t.streams == old(t.streams)[stream := AppendTo(old(t.StreamAt(stream)), c.enc(m))]
  {
    t.StreamAppend(StreamFor(m.teamSession, m.recipient), c.enc(m));
  }

  /** Receives the next handoff of a recipient in a session, and touches no other stream. */
  method ReceiveHandoffIn(t: InMemoryTransport, c: Codec, session: Option<string>, recipient: RoleRef, clock: int)
    returns (r: Result<Option<Delivered>, Unreadable>)
    modifies t`streams
    ensures
      var stream := StreamFor(session, recipient);
      var before, after := old(t.StreamAt(stream)), t.StreamAt(stream);
      && (stream in old(t.streams) ==>
            var (s, d) := Read(before, CONSUMER_NAME, clock + t.skew);
            && after == s
            && r == (if d.None? then Success(None)
                     else if c.dec(d.value.payload).None? then Failure(Unreadable)
                     else Success(Some(Delivered(c.dec(d.value.payload).value, stream, d.value.msgId)))))
      && (stream !in old(t.streams) ==> r == Success(None) && t.streams == old(t.streams))
    ensures forall other | other != StreamFor(session, recipient) :: t.StreamAt(other) == old(t.StreamAt(other))
  {
    var stream := StreamFor(session, recipient);
    var envelope := t.StreamReadNext(stream, CONSUMER_NAME, clock);
    if envelope.None? {
      return Success(None);
    }
    var message := c.dec(envelope.value.payload);
    if message.None? {
      return Failure(Unreadable);
    }
    r := Success(Some(Delivered(message.value, stream, envelope.value.msgId)));
  }

  method AckHandoff(t: InMemoryTransport, d: Delivered)
    modifies t`streams
    ensures t.streams == if d.stream in old(t.streams)
                         then old(t.streams)[d.stream := Ack(old(t.StreamAt(d.stream)), CONSUMER_NAME, d.msgId)]
                         else old(t.streams)
  {
    t.StreamAck(d.stream, CONSUMER_NAME, d.msgId);
  }

  /** A handoff sent to a recipient that has consumed all others is what it receives next, and no stream but
      the recipient's own, in its session, sees it. */
  lemma SentIsReceived(c: Codec, streams: map<string, Stream>, m: Message, now: int)
    requires
      var s := StreamIn(streams, StreamFor(m.teamSession, m.recipient));
      CursorOf(s, CONSUMER_NAME) == |s.messages| && LeaseOf(s, CONSUMER_NAME).None?
    requires c.dec(c.enc(m)) == Some(m)
    ensures
      var own := StreamFor(m.teamSession, m.recipient);
      var streams' := streams[own := AppendTo(StreamIn(streams, own), c.enc(m))];
      var d := Read(StreamIn(streams', own), CONSUMER_NAME, now).1;
      && d.Some? && c.dec(d.value.payload) == Some(m)
      && (forall session, recipient | StreamFor(session, recipient) != own ::
            StreamIn(streams', StreamFor(session, recipient)) == StreamIn(streams, StreamFor(session, recipient)))
  {
    hide StreamFor;
  }

  /** Acknowledging a handoff at once after receiving it consumes exactly that message: the next
      receive looks at the one after it. */
  lemma AckConsumesDelivered(s: Stream, now: int)
    requires Read(s, CONSUMER_NAME, now).1.Some?
    ensures
      var (s', d) := Read(s, CONSUMER_NAME, now);
      var acked := Ack(s', CONSUMER_NAME, d.value.msgId);
      && CursorOf(acked, CONSUMER_NAME) == CursorOf(s, CONSUMER_NAME) + 1
      && LeaseOf(acked, CONSUMER_NAME) == None && acked.messages == s.messages
  {
    IdRoundTrip(CursorOf(s, CONSUMER_NAME));
    hide ParseId;
  }
}
