/** The in-process transport: a key-value store whose entries expire, and streams that lease each
    message to its reader until it is acknowledged or the lease runs out. */
module MemoryTransport {
  import opened Wrappers
  import opened Text

  // ── Key-value entries ───────────────────────────────────────────────────────

  datatype KvEntry = KvEntry(value: string, expiresAt: Option<int>)

  type Bucket = map<string, KvEntry>

  predicate Expired(e: KvEntry, now: int) { e.expiresAt.Some? && now >= e.expiresAt.value }

  function Live(b: Bucket, key: string, now: int): Option<string> {
    if key in b && !Expired(b[key], now) then Some(b[key].value) else None
  }

  function PutIn(b: Bucket, key: string, value: string, ttl: Option<nat>, now: int): Bucket {
    b[key := KvEntry(value, if ttl.Some? then Some(now + ttl.value) else None)]
  }

  // ── Streams ─────────────────────────────────────────────────────────────────

  datatype Lease = Lease(idx: nat, deadline: int)

  datatype Stream = Stream(messages: seq<string>, cursors: map<string, nat>, inFlight: map<string, Lease>,
                           ackWaits: map<string, nat>)

  datatype Delivery = Delivery(msgId: string, payload: string)

  const NEW_STREAM := Stream([], map[], map[], map[])

  function CursorOf(s: Stream, consumer: string): nat {
    if consumer in s.cursors then s.cursors[consumer] else 0
  }

  function WaitOf(s: Stream, consumer: string): nat {
    if consumer in s.ackWaits then s.ackWaits[consumer] else 0
  }

  function LeaseOf(s: Stream, consumer: string): Option<Lease> {
    if consumer in s.inFlight then Some(s.inFlight[consumer]) else None
  }

  // Message ids are decimal indexes; the parser also takes a plus sign in front.
  function ParseId(id: string): Option<nat> {
    var digits := if id != "" && id[0] == '+' then id[1..] else id;
    if digits != "" && AllDigits(digits) then Some(Value(digits)) else None
  }

  lemma IdRoundTrip(n: nat)
    ensures ParseId(Dec(n)) == Some(n)
  {
    ValueOfDec(n);
  }

  /** Which ids parse, and to what: digits, with a plus sign in front or not. */
  lemma ParsesExactly(id: string, n: nat)
    ensures ParseId(id) == Some(n) <==>
      || (id != "" && AllDigits(id) && Value(id) == n)
      || (|id| > 1 && id[0] == '+' && AllDigits(id[1..]) && Value(id[1..]) == n)
  {
    assert id != "" && id[0] == '+' ==> !AllDigits(id);
    assert id == "+" ==> id[1..] == "";
  }

  // Whether the message at the cursor is leased at this moment.
  predicate LeasedNow(s: Stream, consumer: string, now: int) {
    var lease := LeaseOf(s, consumer);
    lease.Some? && lease.value.idx == CursorOf(s, consumer) && now < lease.value.deadline
  }

  function AppendTo(s: Stream, payload: string): Stream { s.(messages := s.messages + [payload]) }

  function Read(s: Stream, consumer: string, now: int): (Stream, Option<Delivery>) {
    var cursor := CursorOf(s, consumer);
    var s1 := s.(cursors := s.cursors[consumer := cursor]);
    if cursor >= |s.messages| || LeasedNow(s, consumer, now) then (s1, None)
    else (s1.(inFlight := s.inFlight[consumer := Lease(cursor, now + WaitOf(s, consumer))]),
          Some(Delivery(Dec(cursor), s.messages[cursor])))
  }

  function Ack(s: Stream, consumer: string, id: string): Stream {
    var n, cursor := ParseId(id), CursorOf(s, consumer);
    if n.None? then s
    else if n.value != cursor then s.(cursors := s.cursors[consumer := cursor])
    else s.(cursors := s.cursors[consumer := cursor + 1], inFlight := s.inFlight - {consumer})
  }

  // Moves the deadline of a lease on the named message.
  function MoveDeadline(s: Stream, consumer: string, id: string, deadline: int): Stream {
    var n, lease := ParseId(id), LeaseOf(s, consumer);
    if n.Some? && lease.Some? && lease.value.idx == n.value then
      s.(inFlight := s.inFlight[consumer := Lease(n.value, deadline)])
    else s
  }

  function Progress(s: Stream, consumer: string, id: string, now: int): Stream {
    MoveDeadline(s, consumer, id, now + WaitOf(s, consumer))
  }

  function Nak(s: Stream, consumer: string, id: string, delay: nat, now: int): Stream {
    MoveDeadline(s, consumer, id, now + delay)
  }

  predicate Wanted(ids: seq<string>, idx: nat) { exists i :: 0 <= i < |ids| && ParseId(ids[i]) == Some(idx) }

  function Recover(s: Stream, consumer: string, ids: seq<string>): (Stream, nat) {
    var lease := LeaseOf(s, consumer);
    if lease.Some? && Wanted(ids, lease.value.idx) then (s.(inFlight := s.inFlight - {consumer}), 1) else (s, 0)
  }

  function SetWait(s: Stream, consumer: string, wait: nat): Stream {
    s.(ackWaits := s.ackWaits[consumer := wait])
  }

  // A bucket or a stream nobody has written to is empty.
  function BucketIn(kv: map<string, Bucket>, bucket: string): Bucket {
    if bucket in kv then kv[bucket] else map[]
  }

  function StreamIn(streams: map<string, Stream>, stream: string): Stream {
    if stream in streams then streams[stream] else NEW_STREAM
  }

  // ── The transport ───────────────────────────────────────────────────────────

  /** Each operation takes the real clock as a parameter; `skew` is added to it. */
  class InMemoryTransport {
    var skew: nat
    var kv: map<string, Bucket>
    var streams: map<string, Stream>

    constructor ()
      ensures skew == 0 && kv == map[] && streams == map[]
    {
      skew, kv, streams := 0, map[], map[];
    }

    function BucketAt(bucket: string): Bucket
      reads this
    {
      BucketIn(kv, bucket)
    }

    function StreamAt(stream: string): Stream
      reads this
    {
      StreamIn(streams, stream)
    }

    method Advance(step: nat)
      modifies `skew
      ensures skew == old(skew) + step
    {
      skew := skew + step;
    }

    method KvPut(bucket: string, key: string, value: string, ttl: Option<nat>, clock: int)
      modifies `kv
      ensures kv == old(kv)[bucket := PutIn(old(BucketAt(bucket)), key, value, ttl, clock + skew)]
    {
      var now := clock + skew;
      var b := BucketAt(bucket);
      b := b[key := KvEntry(value, if ttl.Some? then Some(now + ttl.value) else None)];
      kv := kv[bucket := b];
    }

    /** Creates an entry unless a live one is there: of any callers racing for a key, one wins. */
    method KvCreate(bucket: string, key: string, value: string, clock: int) returns (won: bool)
      modifies `kv
      ensures won <==> Live(old(BucketAt(bucket)), key, clock + skew).None?
      ensures BucketAt(bucket) ==
        if won then PutIn(old(BucketAt(bucket)), key, value, None, 0) else old(BucketAt(bucket))
      ensures forall other | other != bucket :: BucketAt(other) == old(BucketAt(other))
    {
      var now := clock + skew;
      var b := BucketAt(bucket);
      if key in b && !Expired(b[key], now) {
        kv := kv[bucket := b];
        return false;
      }
      kv := kv[bucket := b[key := KvEntry(value, None)]];
      return true;
    }

    method KvGet(bucket: string, key: string, clock: int) returns (value: Option<string>)
      ensures value == Live(BucketAt(bucket), key, clock + skew)
    {
      value := None;
      if bucket in kv && key in kv[bucket] && !Expired(kv[bucket][key], clock + skew) {
        value := Some(kv[bucket][key].value);
      }
    }

    method KvDelete(bucket: string, key: string)
      modifies `kv
      ensures BucketAt(bucket) == old(BucketAt(bucket)) - {key}
      ensures forall other | other != bucket :: BucketAt(other) == old(BucketAt(other))
    {
      if bucket in kv {
        kv := kv[bucket := kv[bucket] - {key}];
      }
    }

    method StreamAppend(stream: string, payload: string)
      modifies `streams
      ensures streams == old(streams)[stream := AppendTo(old(StreamAt(stream)), payload)]
    {
      var s := StreamAt(stream);
      streams := streams[stream := s.(messages := s.messages + [payload])];
    }

    /** Reads the message at the cursor, unless it is leased; the read leases it. */
    method StreamReadNext(stream: string, consumer: string, clock: int) returns (d: Option<Delivery>)
      modifies `streams
      ensures stream in old(streams) ==> (StreamAt(stream), d) == Read(old(StreamAt(stream)), consumer, clock + skew)
      ensures stream !in old(streams) ==> streams == old(streams) && d == None
      ensures forall other | other != stream :: StreamAt(other) == old(StreamAt(other))
    {
      var now := clock + skew;
      if stream !in streams {
        return None;
      }
      var s := streams[stream];
      if consumer !in s.cursors {
        s := s.(cursors := s.cursors[consumer := 0]);
      }
      var cursor := s.cursors[consumer];
      assert s.cursors[consumer := cursor] == s.cursors;
      streams := streams[stream := s];
      if cursor >= |s.messages| {
        return None;
      }
      if consumer in s.inFlight && s.inFlight[consumer].idx == cursor && now < s.inFlight[consumer].deadline {
        return None;
      }
      var wait := if consumer in s.ackWaits then s.ackWaits[consumer] else 0;
      streams := streams[stream := s.(inFlight := s.inFlight[consumer := Lease(cursor, now + wait)])];
      d := Some(Delivery(Dec(cursor), s.messages[cursor]));
    }

    method StreamAck(stream: string, consumer: string, msgId: string)
      modifies `streams
      ensures streams == if stream in old(streams)
                         then old(streams)[stream := Ack(old(StreamAt(stream)), consumer, msgId)] else old(streams)
    {
      if stream !in streams { return; }
      var s := streams[stream];
      var id := ParseId(msgId);
      if id.Some? {
        var cursor := if consumer in s.cursors then s.cursors[consumer] else 0;
        s := s.(cursors := s.cursors[consumer := cursor]);
        if cursor == id.value {
          assert s.cursors[consumer := cursor + 1] == streams[stream].cursors[consumer := cursor + 1];
          s := s.(cursors := s.cursors[consumer := cursor + 1], inFlight := s.inFlight - {consumer});
        }
      }
      streams := streams[stream := s];
    }

    method StreamAckProgress(stream: string, consumer: string, msgId: string, clock: int)
      modifies `streams
      ensures streams == if stream in old(streams)
                         then old(streams)[stream := Progress(old(StreamAt(stream)), consumer, msgId, clock + skew)]
                         else old(streams)
    {
      if stream !in streams { return; }
      var s := streams[stream];
      var wait := if consumer in s.ackWaits then s.ackWaits[consumer] else 0;
      var id := ParseId(msgId);
      if id.Some? && consumer in s.inFlight && s.inFlight[consumer].idx == id.value {
        s := s.(inFlight := s.inFlight[consumer := Lease(id.value, clock + skew + wait)]);
      }
      streams := streams[stream := s];
    }

    method StreamNakDelayed(stream: string, consumer: string, msgId: string, delay: nat, clock: int)
      modifies `streams
      ensures streams == if stream in old(streams)
                         then old(streams)[stream := Nak(old(StreamAt(stream)), consumer, msgId, delay, clock + skew)]
                         else old(streams)
    {
      if stream !in streams { return; }
      var s := streams[stream];
      var id := ParseId(msgId);
      if id.Some? && consumer in s.inFlight && s.inFlight[consumer].idx == id.value {
        s := s.(inFlight := s.inFlight[consumer := Lease(id.value, clock + skew + delay)]);
      }
      streams := streams[stream := s];
    }

    method StreamRecoverPending(stream: string, consumer: string, msgIds: seq<string>) returns (released: nat)
      modifies `streams
      ensures stream in old(streams) ==>
        && streams == old(streams)[stream := Recover(old(StreamAt(stream)), consumer, msgIds).0]
        && released == Recover(old(StreamAt(stream)), consumer, msgIds).1
      ensures stream !in old(streams) ==> streams == old(streams) && released == 0
    {
      if stream !in streams {
        return 0;
      }
      var s := streams[stream];
      var leased := false;
      if consumer in s.inFlight {
        for i := 0 to |msgIds|
          invariant leased <==> exists k :: 0 <= k < i && ParseId(msgIds[k]) == Some(s.inFlight[consumer].idx)
        {
          if ParseId(msgIds[i]) == Some(s.inFlight[consumer].idx) {
            leased := true;
          }
        }
      }
      released := 0;
      if leased {
        s := s.(inFlight := s.inFlight - {consumer});
        released := 1;
      }
      streams := streams[stream := s];
    }

    method StreamSetAckWait(stream: string, consumer: string, wait: nat)
      modifies `streams
      ensures streams == old(streams)[stream := SetWait(old(StreamAt(stream)), consumer, wait)]
    {
      var s := StreamAt(stream);
      streams := streams[stream := s.(ackWaits := s.ackWaits[consumer := wait])];
    }
  }
}
