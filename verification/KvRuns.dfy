/** Runs of the key-value store: what a read finds, and who wins a race to create. */
module KvRuns {
  import opened Wrappers
  import opened MemoryTransport

  type Store = map<string, Bucket>

  /** Each operation with its bucket, and with the moment it is done at. */
  datatype KvOp =
    | Put(bucket: string, key: string, value: string, ttl: Option<nat>, at: int)
    | Create(bucket: string, key: string, value: string, at: int)
    | Delete(bucket: string, key: string)
  {
    predicate Names(b: string, k: string) { bucket == b && key == k }
  }

  function Do(kv: Store, op: KvOp): Store {
    var b := BucketIn(kv, op.bucket);
    match op
    case Put(_, key, value, ttl, at) => kv[op.bucket := PutIn(b, key, value, ttl, at)]
    case Create(_, key, value, at) => if Live(b, key, at).None? then kv[op.bucket := PutIn(b, key, value, None, 0)] else kv
    case Delete(_, key) => kv[op.bucket := b - {key}]
  }

  function After(ops: seq<KvOp>): Store {
    if ops == [] then map[] else Do(After(ops[..|ops| - 1]), ops[|ops| - 1])
  }

  /** What a read of a key finds after a run. */
  function Found(ops: seq<KvOp>, bucket: string, key: string, now: int): Option<string> {
    Live(BucketIn(After(ops), bucket), key, now)
  }

  predicate Won(ops: seq<KvOp>, i: nat)
    requires i < |ops|
  {
    ops[i].Create? && Found(ops[..i], ops[i].bucket, ops[i].key, ops[i].at).None?
  }

  lemma {:induction false} OtherKeysOnly(ops: seq<KvOp>, n: nat, bucket: string, key: string)
    requires n <= |ops| && forall j | n <= j < |ops| :: !ops[j].Names(bucket, key)
    ensures
      var b, b' := BucketIn(After(ops[..n]), bucket), BucketIn(After(ops), bucket);
      (key in b' <==> key in b) && (key in b' ==> b'[key] == b[key])
    decreases |ops|
  {
    if n == |ops| {
      assert ops[..n] == ops;
    } else {
      OtherKeysOnly(ops[..|ops| - 1], n, bucket, key);
      assert ops[..|ops| - 1][..n] == ops[..n];
      assert !ops[|ops| - 1].Names(bucket, key);
    }
  }

  /** A read finds what the last operation on its key in its bucket left: the value put, until its time to
      live is over; the value of a create that won, for good; nothing after a delete; and otherwise,
      after a create that lost, what was there before. */
  lemma ReadsLastWrite(ops: seq<KvOp>, i: nat, now: int)
    requires i < |ops| && forall j | i < j < |ops| :: !ops[j].Names(ops[i].bucket, ops[i].key)
    ensures
      var op := ops[i];
      Found(ops, op.bucket, op.key, now) ==
        match op
        case Put(_, _, value, ttl, at) => if ttl.Some? && now >= at + ttl.value then None else Some(value)
        case Create(_, _, value, _) =>
          if Won(ops, i) then Some(value) else Found(ops[..i], op.bucket, op.key, now)
        case Delete(_, _) => None
  {
    OtherKeysOnly(ops, i + 1, ops[i].bucket, ops[i].key);
    assert ops[..i + 1][..i] == ops[..i];
  }

  /** A key that no operation names is not there. */
  lemma NeverWritten(ops: seq<KvOp>, bucket: string, key: string, now: int)
    requires forall j | 0 <= j < |ops| :: !ops[j].Names(bucket, key)
    ensures Found(ops, bucket, key, now) == None
  {
    OtherKeysOnly(ops, 0, bucket, key);
    assert ops[..0] == [];
  }

  lemma {:induction false} CreatedStays(ops: seq<KvOp>, i: nat)
    requires i < |ops| && Won(ops, i)
    requires forall k | i < k < |ops| && ops[k].Names(ops[i].bucket, ops[i].key) :: ops[k].Create?
    ensures
      var b := BucketIn(After(ops), ops[i].bucket);
      ops[i].key in b && b[ops[i].key] == KvEntry(ops[i].value, None)
    decreases |ops|
  {
    if i == |ops| - 1 {
      assert ops[..i + 1] == ops;
    } else {
      var front, last := ops[..|ops| - 1], ops[|ops| - 1];
      assert front[..i] == ops[..i] && forall k | 0 <= k < |front| :: front[k] == ops[k];
      CreatedStays(front, i);
      assert last.Names(ops[i].bucket, ops[i].key) ==> last.Create?;
    }
  }

  /** Of any number of creators of one key in one bucket, at whatever moments, only one wins, unless the key
      is put or deleted in between. */
  lemma OneCreatorWins(ops: seq<KvOp>, i: nat, j: nat)
    requires i < j < |ops| && ops[j].Names(ops[i].bucket, ops[i].key) && Won(ops, i)
    requires forall k | i < k < j && ops[k].Names(ops[i].bucket, ops[i].key) :: ops[k].Create?
    ensures !Won(ops, j)
  {
    var before := ops[..j];
    assert before[..i] == ops[..i] && forall k | 0 <= k < j :: before[k] == ops[k];
    CreatedStays(before, i);
  }
}
