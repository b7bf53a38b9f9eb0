/** Any mix of operations by any number of consumers on one stream. */
module StreamRuns {
  import opened Wrappers
  import opened Text
  import opened MemoryTransport

  datatype Op =
    | Append(payload: string)
    | ReadOp(consumer: string, now: int)
    | AckOp(consumer: string, id: string)
    | ProgressOp(consumer: string, id: string, now: int)
    | NakOp(consumer: string, id: string, delay: nat, now: int)
    | RecoverOp(consumer: string, ids: seq<string>)
    | SetWaitOp(consumer: string, wait: nat)

  function OrNew(s: Option<Stream>): Stream { if s.Some? then s.value else NEW_STREAM }

  // A stream comes into being with its first append or ack wait; before that nothing has an effect.
  function Do(s: Option<Stream>, op: Op): Option<Stream> {
    match op
    case Append(payload) => Some(AppendTo(OrNew(s), payload))
    case SetWaitOp(c, wait) => Some(SetWait(OrNew(s), c, wait))
    case _ =>
      if s.None? then None
      else match op
        case ReadOp(c, now) => Some(Read(s.value, c, now).0)
        case AckOp(c, id) => Some(Ack(s.value, c, id))
        case ProgressOp(c, id, now) => Some(Progress(s.value, c, id, now))
        case NakOp(c, id, delay, now) => Some(Nak(s.value, c, id, delay, now))
        case RecoverOp(c, ids) => Some(Recover(s.value, c, ids).0)
  }

  function After(ops: seq<Op>): Option<Stream> {
    if ops == [] then None else Do(After(ops[..|ops| - 1]), ops[|ops| - 1])
  }

  function State(ops: seq<Op>): Stream { OrNew(After(ops)) }

  // What the operation at `i` delivered.
  function DeliveredAt(ops: seq<Op>, i: nat): Option<Delivery>
    requires i < |ops|
  {
    if ops[i].ReadOp? then Read(State(ops[..i]), ops[i].consumer, ops[i].now).1 else None
  }

  lemma Unfold(ops: seq<Op>, n: nat)
    requires n < |ops|
    ensures After(ops[..n + 1]) == Do(After(ops[..n]), ops[n])
  {
    assert ops[..n + 1][..n] == ops[..n];
  }

  // Everything a consumer's reads depend on besides the messages.
  datatype View = View(cursor: nat, lease: Option<Lease>, wait: nat)

  function ViewOf(s: Stream, c: string): View { View(CursorOf(s, c), LeaseOf(s, c), WaitOf(s, c)) }

  predicate Touches(op: Op, c: string) { !op.Append? && op.consumer == c }

  // What one operation does to a consumer's view.
  function ViewStep(v: View, messages: nat, op: Op): View
    requires !op.Append?
  {
    match op
    case ReadOp(_, now) =>
      if v.cursor >= messages || (v.lease.Some? && v.lease.value.idx == v.cursor && now < v.lease.value.deadline) then v
      else v.(lease := Some(Lease(v.cursor, now + v.wait)))
    case AckOp(_, id) => if ParseId(id) == Some(v.cursor) then v.(cursor := v.cursor + 1, lease := None) else v
    case ProgressOp(_, id, now) => MoveLease(v, id, now + v.wait)
    case NakOp(_, id, delay, now) => MoveLease(v, id, now + delay)
    case RecoverOp(_, ids) => if v.lease.Some? && Wanted(ids, v.lease.value.idx) then v.(lease := None) else v
    case SetWaitOp(_, wait) => v.(wait := wait)
  }

  function MoveLease(v: View, id: string, deadline: int): View {
    if v.lease.Some? && ParseId(id) == Some(v.lease.value.idx) then
      v.(lease := Some(Lease(v.lease.value.idx, deadline)))
    else v
  }

  /** One operation changes the view of the consumer it names, as `ViewStep` says, and no other. */
  lemma DoSeenBy(s: Option<Stream>, op: Op, c: string)
    ensures
      var before, after := OrNew(s), OrNew(Do(s, op));
      && ViewOf(after, c) ==
           (if Touches(op, c) && (s.Some? || op.SetWaitOp?) then ViewStep(ViewOf(before, c), |before.messages|, op)
            else ViewOf(before, c))
      && after.messages == before.messages + (if op.Append? then [op.payload] else [])
  {
    hide ParseId, Wanted;
    if op.ProgressOp? || op.NakOp? {
      MovedLeaseSeenBy(s, op, c);
      hide Do;
    }
  }

  lemma MovedLeaseSeenBy(s: Option<Stream>, op: Op, c: string)
    requires op.ProgressOp? || op.NakOp?
    ensures
      var before, after := OrNew(s), OrNew(Do(s, op));
      && ViewOf(after, c) ==
           (if Touches(op, c) && s.Some? then ViewStep(ViewOf(before, c), |before.messages|, op) else ViewOf(before, c))
      && after.messages == before.messages
  {
    hide ParseId;
  }

  // ── Acknowledging ───────────────────────────────────────────────────────────

  function Appended(ops: seq<Op>): seq<string> {
    if ops == [] then []
    else
      var last := ops[|ops| - 1];
      Appended(ops[..|ops| - 1]) + if last.Append? then [last.payload] else []
  }

  // What a consumer's acknowledgements have taken, in order.
  function Acked(ops: seq<Op>, c: string): seq<string> {
    if ops == [] then []
    else
      var front, last := ops[..|ops| - 1], ops[|ops| - 1];
      var s := State(front);
      Acked(front, c)
      + if last.AckOp? && last.consumer == c && After(front).Some? && ParseId(last.id) == Some(CursorOf(s, c))
           && CursorOf(s, c) < |s.messages| then [s.messages[CursorOf(s, c)]]
        else []
  }

  // A consumer acknowledges only what a read of its own returned.
  predicate AckWasRead(ops: seq<Op>, j: nat)
    requires j < |ops|
  {
    ops[j].AckOp? ==>
      exists i :: 0 <= i < j && ops[i].ReadOp? && ops[i].consumer == ops[j].consumer
        && DeliveredAt(ops, i).Some? && DeliveredAt(ops, i).value.msgId == ops[j].id
  }

  predicate AcksWereRead(ops: seq<Op>) { forall j | 0 <= j < |ops| :: AckWasRead(ops, j) }

  lemma {:induction false} MessagesAreAppended(ops: seq<Op>)
    ensures State(ops).messages == Appended(ops)
  {
    if ops != [] {
      var front, last := ops[..|ops| - 1], ops[|ops| - 1];
      MessagesAreAppended(front);
      DoSeenBy(After(front), last, "");
    }
  }

  lemma {:induction false} MessagesGrow(ops: seq<Op>, i: nat)
    requires i <= |ops|
    ensures State(ops[..i]).messages <= State(ops).messages
  {
    if i == |ops| {
      assert ops[..i] == ops;
    } else {
      var front, last := ops[..|ops| - 1], ops[|ops| - 1];
      MessagesGrow(front, i);
      assert front[..i] == ops[..i];
      DoSeenBy(After(front), last, "");
    }
  }

  /** A lease always sits at the cursor, on a message that exists. */
  lemma {:induction false} LeaseAtCursor(ops: seq<Op>, c: string)
    ensures var v := ViewOf(State(ops), c);
      v.lease.Some? ==> v.lease.value.idx == v.cursor < |State(ops).messages|
  {
    if ops != [] {
      var front, last := ops[..|ops| - 1], ops[|ops| - 1];
      LeaseAtCursor(front, c);
      hide Do, ViewOf, ParseId, Wanted;
      DoSeenBy(After(front), last, c);
      ViewFields(State(front), c);
      ViewFields(State(ops), c);
    }
  }

  lemma ViewFields(s: Stream, c: string)
    ensures ViewOf(s, c) == View(CursorOf(s, c), LeaseOf(s, c), WaitOf(s, c))
  {
  }

  // An acknowledged id was delivered, so it names a message that exists.
  lemma AckedIdExists(ops: seq<Op>, j: nat)
    requires j < |ops| && ops[j].AckOp? && AckWasRead(ops, j)
    ensures ParseId(ops[j].id).Some? && ParseId(ops[j].id).value < |State(ops[..j]).messages|
  {
    var i :| 0 <= i < j && ops[i].ReadOp? && ops[i].consumer == ops[j].consumer
      && DeliveredAt(ops, i).Some? && DeliveredAt(ops, i).value.msgId == ops[j].id;
    var s := State(ops[..i]);
    IdRoundTrip(CursorOf(s, ops[i].consumer));
    MessagesGrow(ops[..j], i);
    assert ops[..j][..i] == ops[..i];
  }

  // An acknowledgement that names the cursor when there is no message at it.
  predicate OverAck(ops: seq<Op>, j: nat, c: string)
    requires j < |ops|
  {
    var s := State(ops[..j]);
    && ops[j].AckOp? && ops[j].consumer == c && After(ops[..j]).Some?
    && ParseId(ops[j].id) == Some(CursorOf(s, c)) && CursorOf(s, c) >= |s.messages|
  }

  predicate NoOverAck(ops: seq<Op>, c: string) { forall j | 0 <= j < |ops| :: !OverAck(ops, j, c) }

  // What one operation acknowledges, and where it leaves the cursor.
  lemma AckStep(ops: seq<Op>, c: string)
    requires ops != []
    ensures
      var n := |ops| - 1;
      var s := State(ops[..n]);
      var k, k' := CursorOf(s, c), CursorOf(State(ops), c);
      && (k' == k || k' == k + 1)
      && (OverAck(ops, n, c) ==> k' == k + 1)
      && (k < |s.messages| ==> Acked(ops, c) == Acked(ops[..n], c) + (if k' == k then [] else [s.messages[k]]))
      && (k >= |s.messages| ==> Acked(ops, c) == Acked(ops[..n], c) && (k' == k + 1 <==> OverAck(ops, n, c)))
  {
    var front, last := ops[..|ops| - 1], ops[|ops| - 1];
    ViewFields(State(front), c);
    ViewFields(State(ops), c);
    hide Do, ParseId, Wanted, ViewOf;
    DoSeenBy(After(front), last, c);
  }

  // What a consumer has acknowledged is exactly what its cursor has passed.
  predicate PrefixAcked(ops: seq<Op>, c: string) {
    var k := CursorOf(State(ops), c);
    k <= |Appended(ops)| && Acked(ops, c) == Appended(ops)[..k]
  }

  lemma OverAckBefore(ops: seq<Op>, j: nat, c: string)
    requires ops != [] && j < |ops| - 1
    ensures OverAck(ops[..|ops| - 1], j, c) <==> OverAck(ops, j, c)
  {
    assert ops[..|ops| - 1][..j] == ops[..j];
    hide State, After, ParseId;
  }

  lemma {:induction false} NoOverAckMeansPrefix(ops: seq<Op>, c: string)
    requires NoOverAck(ops, c)
    ensures PrefixAcked(ops, c)
  {
    hide Acked, State, After, Appended, OverAck;
    if ops == [] {
      NothingYet(c);
    } else {
      var n := |ops| - 1;
      var front := ops[..n];
      forall j | 0 <= j < n ensures !OverAck(front, j, c) { OverAckBefore(ops, j, c); }
      NoOverAckMeansPrefix(front, c);
      AppendedGrows(ops);
      MessagesAreAppended(front);
      AckStep(ops, c);
      var k := CursorOf(State(front), c);
      assert !OverAck(ops, n, c);
      assert Appended(ops)[..k] == Appended(front)[..k];
      if k < |Appended(ops)| { assert Appended(ops)[..k + 1] == Appended(ops)[..k] + [Appended(ops)[k]]; }
    }
  }

  lemma OverAckPassesEnd(ops: seq<Op>, j: nat, c: string)
    requires j < |ops| && OverAck(ops, j, c)
    ensures !PrefixAcked(ops[..j + 1], c)
  {
    hide *;
    var now := ops[..j + 1];
    assert now[..|now| - 1] == ops[..j];
    OverAckIs(ops, j, c);
    AckStep(now, c);
    MessagesAreAppended(ops[..j]);
    PrefixAckedIs(now, c);
  }

  lemma OverAckIs(ops: seq<Op>, j: nat, c: string)
    requires j < |ops| && OverAck(ops, j, c)
    ensures OverAck(ops[..j + 1], j, c)
    ensures CursorOf(State(ops[..j]), c) >= |State(ops[..j]).messages|
    ensures Appended(ops[..j + 1]) == Appended(ops[..j])
  {
    hide State, After, ParseId, CursorOf;
    assert ops[..j + 1][..j] == ops[..j];
  }

  lemma PrefixAckedIs(ops: seq<Op>, c: string)
    ensures PrefixAcked(ops, c) ==> CursorOf(State(ops), c) <= |Appended(ops)|
  {
  }

  /** A consumer has acknowledged exactly a prefix of what was appended at every point of a run, in
      order, none skipped and none twice, if and only if it never acknowledges the id at its cursor when
      there is no message there. */
  lemma AcksAreAPrefixExactly(ops: seq<Op>, c: string)
    ensures (forall n | 0 <= n <= |ops| :: PrefixAcked(ops[..n], c)) <==> NoOverAck(ops, c)
  {
    hide PrefixAcked, OverAck, State, After;
    if NoOverAck(ops, c) {
      forall n | 0 <= n <= |ops| ensures PrefixAcked(ops[..n], c) {
        forall j | 0 <= j < n ensures !OverAck(ops[..n], j, c) { OverAckTake(ops, n, j, c); }
        NoOverAckMeansPrefix(ops[..n], c);
      }
    }
    if j :| 0 <= j < |ops| && OverAck(ops, j, c) { OverAckPassesEnd(ops, j, c); }
  }

  lemma OverAckTake(ops: seq<Op>, n: nat, j: nat, c: string)
    requires j < n <= |ops|
    ensures OverAck(ops[..n], j, c) <==> OverAck(ops, j, c)
  {
    assert ops[..n][..j] == ops[..j];
    hide State, After, ParseId;
  }

  lemma AppendedGrows(ops: seq<Op>)
    requires ops != []
    ensures Appended(ops[..|ops| - 1]) <= Appended(ops)
  {
  }

  lemma NothingYet(c: string)
    ensures After([]) == None && State([]) == NEW_STREAM && Appended([]) == [] && Acked([], c) == []
    ensures CursorOf(NEW_STREAM, c) == 0 && NEW_STREAM.messages == []
  {
  }

  lemma ReadMeansNoOverAck(ops: seq<Op>, c: string)
    requires AcksWereRead(ops)
    ensures NoOverAck(ops, c)
  {
    forall j | 0 <= j < |ops| ensures !OverAck(ops, j, c) {
      if ops[j].AckOp? {
        assert AckWasRead(ops, j);
        AckedIdExists(ops, j);
      }
    }
  }

  /** So it is whenever consumers acknowledge only what their own reads returned. */
  lemma AcksAreAPrefix(ops: seq<Op>, c: string)
    requires AcksWereRead(ops)
    ensures CursorOf(State(ops), c) <= |Appended(ops)|
    ensures Acked(ops, c) == Appended(ops)[..CursorOf(State(ops), c)]
  {
    ReadMeansNoOverAck(ops, c);
    NoOverAckMeansPrefix(ops, c);
    hide State, Acked, Appended;
  }

  /** A read returns the first message its consumer has not acknowledged, unless that one is leased:
      nothing is lost, and what is not acknowledged comes back when its lease is over. */
  lemma ReadsFirstUnacked(ops: seq<Op>, j: nat)
    requires j < |ops| && ops[j].ReadOp? && NoOverAck(ops[..j], ops[j].consumer)
    ensures
      var past, c := ops[..j], ops[j].consumer;
      var acked := Acked(past, c);
      DeliveredAt(ops, j) ==
        if |acked| < |Appended(past)| && (LeaseOf(State(past), c).Some? ==> ops[j].now >= LeaseOf(State(past), c).value.deadline)
        then Some(Delivery(Dec(|acked|), Appended(past)[|acked|])) else None
  {
    hide State, Acked, Appended, Dec, DeliveredAt, LeaseOf, CursorOf;
    NoOverAckMeansPrefix(ops[..j], ops[j].consumer);
    MessagesAreAppended(ops[..j]);
    DeliversExactly(ops, j);
    AckedLength(ops[..j], ops[j].consumer);
  }

  lemma AckedLength(ops: seq<Op>, c: string)
    requires CursorOf(State(ops), c) <= |Appended(ops)| && Acked(ops, c) == Appended(ops)[..CursorOf(State(ops), c)]
    ensures |Acked(ops, c)| == CursorOf(State(ops), c)
  {
  }

  /** Without that discipline the cursor can pass the end of the stream, and a later message is
      never delivered. */
  lemma UnreadAckSkips(c: string, a: string, b: string, now: int)
    ensures
      var ops := [Append(a), AckOp(c, "0"), AckOp(c, "1"), Append(b), ReadOp(c, now)];
      DeliveredAt(ops, 4) == None && Appended(ops[..4]) == [a, b] && Acked(ops[..4], c) == [a]
  {
    var ops := [Append(a), AckOp(c, "0"), AckOp(c, "1"), Append(b), ReadOp(c, now)];
    hide *;
    SmallIds();
    assert ops[..0] == [];
    NothingYet(c);
    OneMoreOp(ops, 0, c);
    OneMoreOp(ops, 1, c);
    OneMoreOp(ops, 2, c);
    OneMoreOp(ops, 3, c);
    assert [] + [a] == [a] && [a] + [b] == [a, b];
    PastTheEnd(ops, 4);
  }

  lemma SmallIds()
    ensures ParseId("0") == Some(0) && ParseId("1") == Some(1)
  {
    IdRoundTrip(0);
    IdRoundTrip(1);
    assert Dec(0) == "0" && Dec(1) == "1";
  }

  lemma PastTheEnd(ops: seq<Op>, j: nat)
    requires j < |ops| && ops[j].ReadOp? && CursorOf(State(ops[..j]), ops[j].consumer) >= |State(ops[..j]).messages|
    ensures DeliveredAt(ops, j) == None
  {
  }

  lemma OneMoreOp(ops: seq<Op>, n: nat, c: string)
    requires n < |ops| && (ops[n].Append? || (ops[n].AckOp? && ops[n].consumer == c && After(ops[..n]).Some?))
    ensures
      var s, s', op := State(ops[..n]), State(ops[..n + 1]), ops[n];
      var k := CursorOf(s, c);
      var hit := op.AckOp? && ParseId(op.id) == Some(k);
      && After(ops[..n + 1]).Some?
      && CursorOf(s', c) == (if hit then k + 1 else k)
      && s'.messages == s.messages + (if op.Append? then [op.payload] else [])
      && Appended(ops[..n + 1]) == Appended(ops[..n]) + (if op.Append? then [op.payload] else [])
      && Acked(ops[..n + 1], c) == Acked(ops[..n], c) + (if hit && k < |s.messages| then [s.messages[k]] else [])
  {
    assert ops[..n + 1][..n] == ops[..n];
    ViewFields(State(ops[..n]), c);
    ViewFields(State(ops[..n + 1]), c);
    hide Do, ParseId, Wanted, ViewOf;
    DoSeenBy(After(ops[..n]), ops[n], c);
    DoExistsAfter(After(ops[..n]), ops[n]);
  }

  lemma DoExistsAfter(s: Option<Stream>, op: Op)
    requires s.Some? || op.Append?
    ensures Do(s, op).Some?
  {
  }

  // ── Leases ──────────────────────────────────────────────────────────────────

  // An operation that leaves a consumer's lease alone while it lasts.
  predicate Quiet(op: Op, c: string, deadline: int) {
    Touches(op, c) ==> op.SetWaitOp? || (op.ReadOp? && op.now < deadline)
  }

  lemma {:induction false} LeaseHolds(ops: seq<Op>, i: nat, j: nat, c: string, lease: Lease)
    requires i <= j <= |ops| && LeaseOf(State(ops[..i]), c) == Some(lease)
    requires forall k | i <= k < j :: Quiet(ops[k], c, lease.deadline)
    ensures LeaseOf(State(ops[..j]), c) == Some(lease)
    decreases j
  {
    if i < j {
      LeaseHolds(ops, i, j - 1, c, lease);
      Unfold(ops, j - 1);
      LeaseAtCursor(ops[..j - 1], c);
      assert Quiet(ops[j - 1], c, lease.deadline);
      hide Do, ParseId, Wanted;
      DoSeenBy(After(ops[..j - 1]), ops[j - 1], c);
    }
  }

  /** A leased message is not delivered again before its deadline, however many other operations,
      by this consumer's reads or by others, come in between. */
  lemma NotRedeliveredEarly(ops: seq<Op>, i: nat, j: nat, c: string, lease: Lease)
    requires i <= j < |ops| && LeaseOf(State(ops[..i]), c) == Some(lease)
    requires forall k | i <= k < j :: Quiet(ops[k], c, lease.deadline)
    requires ops[j].ReadOp? && ops[j].consumer == c && ops[j].now < lease.deadline
    ensures DeliveredAt(ops, j) == None
  {
    LeaseHolds(ops, i, j, c, lease);
    LeaseAtCursor(ops[..j], c);
  }

  /** Where leases come from and where they go. A delivery leases its message for the consumer's ack wait;
      progress on the leased message starts the wait again; a delayed nak sets its own; acknowledging
      the message at the cursor ends the lease, and so does recovering its id; nothing else moves it. */
  lemma LeaseSet(ops: seq<Op>, j: nat, c: string)
    requires j < |ops|
    ensures
      var before, after, op := State(ops[..j]), State(ops[..j + 1]), ops[j];
      var lease, k, wait := LeaseOf(before, c), CursorOf(before, c), WaitOf(before, c);
      LeaseOf(after, c) ==
        if op.Append? || op.consumer != c || After(ops[..j]).None? then lease
        else match op
          case ReadOp(_, now) => if DeliveredAt(ops, j).Some? then Some(Lease(k, now + wait)) else lease
          case AckOp(_, id) => if ParseId(id) == Some(k) then None else lease
          case ProgressOp(_, id, now) =>
            if lease.Some? && ParseId(id) == Some(k) then Some(Lease(k, now + wait)) else lease
          case NakOp(_, id, delay, now) =>
            if lease.Some? && ParseId(id) == Some(k) then Some(Lease(k, now + delay)) else lease
          case RecoverOp(_, ids) =>
            if lease.Some? && exists i :: 0 <= i < |ids| && ParseId(ids[i]) == Some(k) then None else lease
          case SetWaitOp(_, _) => lease
  {
    ViewFields(State(ops[..j]), c);
    ViewFields(State(ops[..j + 1]), c);
    hide Do, ParseId, ViewOf;
    Unfold(ops, j);
    LeaseAtCursor(ops[..j], c);
    DoSeenBy(After(ops[..j]), ops[j], c);
  }

  /** An ack wait is what was last set for the consumer, from then on. */
  lemma WaitIsSet(ops: seq<Op>, j: nat, c: string)
    requires j < |ops|
    ensures WaitOf(State(ops[..j + 1]), c)
         == if ops[j].SetWaitOp? && ops[j].consumer == c then ops[j].wait else WaitOf(State(ops[..j]), c)
  {
    ViewFields(State(ops[..j]), c);
    ViewFields(State(ops[..j + 1]), c);
    hide Do, ParseId, ViewOf, Wanted;
    Unfold(ops, j);
    DoSeenBy(After(ops[..j]), ops[j], c);
  }

  /** A read delivers exactly when there is a message at the cursor and no lease that still lasts; a
      message whose lease is over comes back. */
  lemma DeliversExactly(ops: seq<Op>, j: nat)
    requires j < |ops| && ops[j].ReadOp?
    ensures
      var s, c, now := State(ops[..j]), ops[j].consumer, ops[j].now;
      var k := CursorOf(s, c);
      DeliveredAt(ops, j) ==
        if k < |s.messages| && (LeaseOf(s, c).Some? ==> now >= LeaseOf(s, c).value.deadline)
        then Some(Delivery(Dec(k), s.messages[k])) else None
  {
    ViewFields(State(ops[..j]), ops[j].consumer);
    LeaseAtCursor(ops[..j], ops[j].consumer);
    hide State, Dec, ViewOf;
  }

  /** Recovering the leased id gives the message to the consumer's very next read. */
  lemma RecoveredComesBack(ops: seq<Op>, j: nat, i: nat)
    requires j + 1 < |ops| && ops[j].RecoverOp? && ops[j + 1].ReadOp? && ops[j + 1].consumer == ops[j].consumer
    requires
      var s, c := State(ops[..j]), ops[j].consumer;
      After(ops[..j]).Some? && CursorOf(s, c) < |s.messages| && i < |ops[j].ids| && ParseId(ops[j].ids[i]) == Some(CursorOf(s, c))
    ensures var s, k := State(ops[..j]), CursorOf(State(ops[..j]), ops[j].consumer);
      DeliveredAt(ops, j + 1) == Some(Delivery(Dec(k), s.messages[k]))
  {
    var c := ops[j].consumer;
    LeaseSet(ops, j, c);
    DeliversExactly(ops, j + 1);
    ViewFields(State(ops[..j]), c);
    ViewFields(State(ops[..j + 1]), c);
    hide Do, ParseId, ViewOf, Dec;
    Unfold(ops, j);
    DoSeenBy(After(ops[..j]), ops[j], c);
  }

  // ── Consumers do not affect each other ──────────────────────────────────────

  function OnlyFor(ops: seq<Op>, c: string): seq<Op> {
    if ops == [] then []
    else
      var last := ops[|ops| - 1];
      OnlyFor(ops[..|ops| - 1], c) + if last.Append? || last.SetWaitOp? || last.consumer == c then [last] else []
  }

  /** A consumer sees the same whatever the others do: its view after a run is its view after the
      appends, ack wait settings and its own operations alone. */
  lemma {:induction false} OthersDoNotMatter(ops: seq<Op>, c: string)
    ensures ViewOf(State(ops), c) == ViewOf(State(OnlyFor(ops, c)), c)
    ensures State(ops).messages == State(OnlyFor(ops, c)).messages
    ensures After(ops).Some? <==> After(OnlyFor(ops, c)).Some?
  {
    if ops != [] {
      var front, last := ops[..|ops| - 1], ops[|ops| - 1];
      OthersDoNotMatter(front, c);
      var mine, all := OnlyFor(front, c), OnlyFor(ops, c);
      DoExists(After(front), last);
      DoExists(After(mine), last);
      hide Do, ViewOf;
      DoSeenBy(After(front), last, c);
      if last.Append? || last.SetWaitOp? || last.consumer == c {
        assert all == mine + [last] && all[..|all| - 1] == mine;
        DoSeenBy(After(mine), last, c);
      } else {
        assert all == mine;
      }
    }
  }

  lemma DoExists(s: Option<Stream>, op: Op)
    ensures Do(s, op).Some? <==> s.Some? || op.Append? || op.SetWaitOp?
  {
  }
}
