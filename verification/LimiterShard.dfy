/**
 One shard of the in-memory limiter. Recency is kept in a queue of (access
 sequence, hash) pairs that is cleaned lazily: every access appends, and pairs
 that a later access, a reset or an eviction made stale stay until they are
 popped or the queue is compacted. The shard is proved to behave, operation by
 operation, as an exact least-recently-checked table that has no queue at all.
 */
module LimiterShard {
  import opened Collections
  import opened TokenBucket

  const MAX_BUCKETS: nat := 100_000
  const SHARDS: nat := 16
  const MAX_BUCKETS_PER_SHARD: nat := MAX_BUCKETS / SHARDS

  /** Scopes and keys are text of which only equality and a hash matter. */
  datatype Key = Key(scope: nat, key: nat)

  datatype Entry = Entry(bucket: Bucket, sequence: nat)

  type Table = map<Key, Entry>

  // ----- The exact limiter -----

  /** The key whose last access is furthest back. */
  ghost function Oldest(t: Table): (oldest: Key)
    requires t.Keys != {}
    ensures oldest in t && forall k :: k in t ==> t[oldest].sequence <= t[k].sequence
  {
    OldestExists(t, t.Keys);
    var k :| k in t && forall j :: j in t ==> t[k].sequence <= t[j].sequence;
    k
  }

  lemma {:induction false} OldestExists(t: Table, among: set<Key>)
    requires among != {} && among <= t.Keys
    ensures exists k :: k in among && forall j :: j in among ==> t[k].sequence <= t[j].sequence
  {
    var x :| x in among;
    if among == {x} {
      assert forall j :: j in among ==> j == x;
    } else {
      OldestExists(t, among - {x});
      var k :| k in among - {x} && forall j :: j in among - {x} ==> t[k].sequence <= t[j].sequence;
      var least := if t[x].sequence <= t[k].sequence then x else k;
      assert forall j :: j in among ==> j == x || j in among - {x};
      assert least in among && forall j :: j in among ==> t[least].sequence <= t[j].sequence;
    }
  }

  ghost function MakeRoom(t: Table): Table {
    if t.Keys != {} && |t| >= MAX_BUCKETS_PER_SHARD then t - {Oldest(t)} else t
  }

  /** A check: `clock` numbers the shard's accesses. Only a miss can evict. */
  ghost function LruCheck(t: Table, clock: nat, key: Key, now: real, q: Quota): (Table, Decision) {
    if key in t then
      var (bucket, decision) := Consume(t[key].bucket, now, q);
      (t[key := Entry(bucket, clock)], decision)
    else
      var (bucket, decision) := Consume(Fresh(q, now), now, q);
      (MakeRoom(t)[key := Entry(bucket, clock)], decision)
  }

  predicate Idle(b: Bucket, now: real) {
    now - b.lastSeen >= IDLE_EVICTION
  }

  function LruEvictIdle(t: Table, now: real): Table {
    map k | k in t && !Idle(t[k].bucket, now) :: t[k]
  }

  // ----- The queue of accesses -----

  datatype Access = Access(sequence: nat, hash: nat)

  /** Sequences strictly increase and lie between the bounds. */
  ghost predicate Increasing(order: seq<Access>, from: nat, to: nat) {
    if order == [] then from <= to
    else from <= order[0].sequence < to && Increasing(order[1..], order[0].sequence + 1, to)
  }

  lemma {:induction false} IncreasingAppend(order: seq<Access>, from: nat, to: nat, hash: nat)
    requires Increasing(order, from, to)
    ensures Increasing(order + [Access(to, hash)], from, to + 1)
  {
    if order == [] {
      assert order + [Access(to, hash)] == [Access(to, hash)];
    } else {
      IncreasingAppend(order[1..], order[0].sequence + 1, to, hash);
      assert (order + [Access(to, hash)])[1..] == order[1..] + [Access(to, hash)];
    }
  }

  lemma {:induction false} IncreasingWidens(order: seq<Access>, from: nat, from': nat, to: nat)
    requires Increasing(order, from, to) && from' <= from
    ensures Increasing(order, from', to)
  {
  }

  lemma {:induction false} QueuedIsWithin(order: seq<Access>, from: nat, to: nat, a: Access)
    requires Increasing(order, from, to) && a in order
    ensures from <= a.sequence < to
    ensures a == order[0] || (a in order[1..] && order[0].sequence < a.sequence)
  {
    if a != order[0] {
      QueuedIsWithin(order[1..], order[0].sequence + 1, to, a);
    }
  }

  /** The table entry a queue pair can be looked up by. */
  ghost predicate Owns(t: Table, hashOf: Key -> nat, k: Key, a: Access) {
    k in t && hashOf(k) == a.hash && t[k].sequence == a.sequence
  }

  ghost predicate Live(t: Table, hashOf: Key -> nat, a: Access) {
    exists k :: Owns(t, hashOf, k, a)
  }

  function PairOf(t: Table, hashOf: Key -> nat, k: Key): Access
    requires k in t
  {
    Access(t[k].sequence, hashOf(k))
  }

  ghost predicate Distinct(t: Table) {
    forall j, k :: j in t && k in t && t[j].sequence == t[k].sequence ==> j == k
  }

  /** Every bucket's current pair is queued. */
  ghost predicate Queued(t: Table, hashOf: Key -> nat, order: seq<Access>) {
    forall k :: k in t ==> PairOf(t, hashOf, k) in order
  }

  ghost function LivePairs(t: Table, hashOf: Key -> nat, order: seq<Access>): seq<Access> {
    if order == [] then []
    else (if Live(t, hashOf, order[0]) then [order[0]] else []) + LivePairs(t, hashOf, order[1..])
  }

  /** Compacting loses no live pair and keeps the order. */
  lemma {:induction false} CompactedIsIncreasing(t: Table, hashOf: Key -> nat, order: seq<Access>, from: nat, to: nat)
    requires Increasing(order, from, to)
    ensures Increasing(LivePairs(t, hashOf, order), from, to)
    ensures forall a :: a in order && Live(t, hashOf, a) ==> a in LivePairs(t, hashOf, order)
  {
    if order != [] {
      var rest := LivePairs(t, hashOf, order[1..]);
      CompactedIsIncreasing(t, hashOf, order[1..], order[0].sequence + 1, to);
      if Live(t, hashOf, order[0]) {
        assert ([order[0]] + rest)[1..] == rest;
      } else {
        assert [] + rest == rest;
        IncreasingWidens(rest, order[0].sequence + 1, from, to);
      }
    }
  }

  lemma {:induction false} CompactedStaysQueued(t: Table, hashOf: Key -> nat, order: seq<Access>, to: nat)
    requires Increasing(order, 0, to) && Queued(t, hashOf, order)
    ensures Increasing(LivePairs(t, hashOf, order), 0, to)
    ensures Queued(t, hashOf, LivePairs(t, hashOf, order))
  {
    CompactedIsIncreasing(t, hashOf, order, 0, to);
    forall k | k in t ensures PairOf(t, hashOf, k) in LivePairs(t, hashOf, order) {
      assert Owns(t, hashOf, k, PairOf(t, hashOf, k));
    }
  }

  ghost function Since(t: Table, from: nat): set<Key> {
    set k | k in t && t[k].sequence >= from
  }

  /** Live pairs name distinct buckets, so a compacted queue is no longer than the table. */
  lemma {:induction false} CompactedIsSmall(t: Table, hashOf: Key -> nat, order: seq<Access>, from: nat, to: nat)
    requires Increasing(order, from, to)
    ensures |LivePairs(t, hashOf, order)| <= |Since(t, from)|
  {
    if order != [] {
      var s := order[0].sequence;
      CompactedIsSmall(t, hashOf, order[1..], s + 1, to);
      if Live(t, hashOf, order[0]) {
        var k :| Owns(t, hashOf, k, order[0]);
        assert Since(t, s + 1) + {k} <= Since(t, from);
        SubsetSize(Since(t, s + 1) + {k}, Since(t, from));
      } else {
        SubsetSize(Since(t, s + 1), Since(t, from));
      }
    }
  }

  lemma {:induction false} SequencesIncrease(order: seq<Access>, from: nat, to: nat, i: nat, j: nat)
    requires Increasing(order, from, to) && i < j < |order|
    ensures order[i].sequence < order[j].sequence
  {
    if i == 0 {
      assert order[1..][j - 1] == order[j];
      QueuedIsWithin(order[1..], order[0].sequence + 1, to, order[j]);
    } else {
      SequencesIncrease(order[1..], order[0].sequence + 1, to, i - 1, j - 1);
    }
  }

  /** A live bucket has one entry in the queue and no second one. */
  lemma {:induction false} LiveBucketsAreQueuedOnce(t: Table, hashOf: Key -> nat, order: seq<Access>, to: nat, key: Key)
    returns (i: nat)
    requires Increasing(order, 0, to) && Queued(t, hashOf, order) && key in t
    ensures i < |order| && order[i] == PairOf(t, hashOf, key)
    ensures forall j :: 0 <= j < |order| && order[j] == order[i] ==> j == i
  {
    assert PairOf(t, hashOf, key) in order;
    i :| 0 <= i < |order| && order[i] == PairOf(t, hashOf, key);
    forall j | 0 <= j < |order| && order[j] == order[i] ensures j == i {
      if i < j { SequencesIncrease(order, 0, to, i, j); }
      else if j < i { SequencesIncrease(order, 0, to, j, i); }
    }
  }

  /** The first live pair of the queue belongs to the least recently checked key. */
  lemma {:induction false} FirstLiveIsOldest(t: Table, hashOf: Key -> nat, order: seq<Access>, from: nat, to: nat, key: Key)
    requires Increasing(order, from, to) && order != [] && Queued(t, hashOf, order) && Distinct(t)
    requires Owns(t, hashOf, key, order[0])
    ensures Oldest(t) == key
    ensures Queued(t - {key}, hashOf, order[1..])
  {
    var oldest := Oldest(t);
    assert PairOf(t, hashOf, oldest) in order;
    QueuedIsWithin(order, from, to, PairOf(t, hashOf, oldest));
    forall k | k in t - {key} ensures PairOf(t - {key}, hashOf, k) in order[1..] {
      assert PairOf(t, hashOf, k) in order;
      QueuedIsWithin(order, from, to, PairOf(t, hashOf, k));
    }
  }

  lemma {:induction false} StalePairCanGo(t: Table, hashOf: Key -> nat, order: seq<Access>)
    requires order != [] && Queued(t, hashOf, order) && !Live(t, hashOf, order[0])
    ensures Queued(t, hashOf, order[1..])
  {
    forall k | k in t ensures PairOf(t, hashOf, k) in order[1..] {
      assert Owns(t, hashOf, k, PairOf(t, hashOf, k));
      assert PairOf(t, hashOf, k) in order;
    }
  }

  // ----- The shard -----

  class Shard {
    const hashOf: Key -> nat
    var buckets: Table
    var order: seq<Access>
    var nextSequence: nat

    ghost predicate Coherent()
      reads this
    {
      && Increasing(order, 0, nextSequence)
      && Queued(buckets, hashOf, order)
      && Distinct(buckets)
    }

    ghost predicate Valid()
      reads this
    {
      && Coherent()
      && |buckets| <= MAX_BUCKETS_PER_SHARD
      && |order| <= 2 * MAX_BUCKETS_PER_SHARD
    }

    constructor (hashOf: Key -> nat)
      ensures Valid() && buckets == map[] && nextSequence == 0
    {
      this.hashOf := hashOf;
      buckets, order, nextSequence := map[], [], 0;
    }

    /** Table lookup by hash and sequence, which is all a queue pair offers. */
    method Find(a: Access) returns (found: Option<Key>)
      ensures if found.Some? then Owns(buckets, hashOf, found.value, a) else !Live(buckets, hashOf, a)
    {
      if k :| k in buckets && hashOf(k) == a.hash && buckets[k].sequence == a.sequence {
        return Some(k);
      }
      return None;
    }

    /** Drops every stale pair, keeping the live ones in order. */
    method Compact()
      requires Coherent()
      modifies this`order
      ensures Coherent() && |order| <= |buckets|
    {
      ghost var live := LivePairs(buckets, hashOf, order);
      CompactedStaysQueued(buckets, hashOf, order, nextSequence);
      CompactedIsSmall(buckets, hashOf, order, 0, nextSequence);
      SubsetSize(Since(buckets, 0), buckets.Keys);
      var kept: seq<Access> := [];
      var rest := order;
      while rest != []
        invariant kept + LivePairs(buckets, hashOf, rest) == live
        decreases |rest|
      {
        var found := Find(rest[0]);
        if found.Some? {
          ConcatAssoc(kept, [rest[0]], LivePairs(buckets, hashOf, rest[1..]));
          assert Live(buckets, hashOf, rest[0]);
          kept := kept + [rest[0]];
        }
        rest := rest[1..];
      }
      assert kept + [] == kept;
      order := kept;
    }

    /** Appends an access; compacts when the queue outgrows twice the table. */
    method RecordAccess(sequence: nat, hash: nat)
      requires Increasing(order, 0, sequence) && sequence + 1 == nextSequence
      requires Queued(buckets, hashOf, order + [Access(sequence, hash)]) && Distinct(buckets)
      requires |buckets| <= MAX_BUCKETS_PER_SHARD && |order| <= 2 * MAX_BUCKETS_PER_SHARD
      modifies this`order
      ensures Valid()
    {
      IncreasingAppend(order, 0, sequence, hash);
      order := order + [Access(sequence, hash)];
      if |order| > MAX_BUCKETS_PER_SHARD * 2 { Compact(); }
    }

    /** Pops queue pairs until one is live, and removes its bucket. */
    method EvictOldest(ghost clock: nat)
      requires Increasing(order, 0, clock) && Queued(buckets, hashOf, order) && Distinct(buckets)
      requires buckets.Keys != {}
      modifies this`buckets, this`order
      ensures Increasing(order, 0, clock) && Queued(buckets, hashOf, order)
      ensures |order| <= old(|order|)
      ensures buckets == old(buckets) - {Oldest(old(buckets))}
    {
      while order != []
        invariant Increasing(order, 0, clock) && Queued(buckets, hashOf, order)
        invariant buckets == old(buckets) && |order| <= old(|order|)
        decreases |order|
      {
        var front := order[0];
        var found := Find(front);
        IncreasingWidens(order[1..], front.sequence + 1, 0, clock);
        if found.Some? {
          FirstLiveIsOldest(buckets, hashOf, order, 0, clock, found.value);
          buckets, order := buckets - {found.value}, order[1..];
          return;
        }
        StalePairCanGo(buckets, hashOf, order);
        order := order[1..];
      }
    }

    /** Charges one request to a key, creating its bucket on a miss. */
    method Check(key: Key, now: real, q: Quota) returns (decision: Decision)
      requires Valid()
      modifies this`buckets, this`order, this`nextSequence
      ensures Valid() && nextSequence == old(nextSequence) + 1
      ensures (buckets, decision) == LruCheck(old(buckets), old(nextSequence), key, now, q)
      // A new key starts with all its tokens.
      ensures key !in old(buckets) && q.capacity >= 1.0 ==>
                decision.Allow? && key in buckets && buckets[key] == Entry(Bucket(q.capacity - 1.0, now), old(nextSequence))
      ensures key !in old(buckets) && q.capacity < 1.0 ==> decision.Deny?
    {
      if key !in buckets { FreshIsFull(now, q); }
      hide Consume;
      var sequence := nextSequence;
      nextSequence := nextSequence + 1;
      var start;
      if key in buckets {
        start := buckets[key].bucket;
      } else {
        if |buckets| >= MAX_BUCKETS_PER_SHARD {
          assert buckets.Keys != {};
          EvictOldest(sequence);
        }
        start := Fresh(q, now);
      }
      var (bucket, d) := Consume(start, now, q);
      decision := d;
      var hash := hashOf(key);
      StoredIsQueued(buckets, hashOf, order, sequence, key, bucket);
      buckets := buckets[key := Entry(bucket, sequence)];
      RecordAccess(sequence, hash);
    }

    /** Forgets a key, as after a successful sign-in. Its pair stays behind as stale. */
    method Reset(key: Key)
      requires Valid()
      modifies this`buckets
      ensures Valid()
      ensures buckets == old(buckets) - {key}
    {
      SubsetSize(buckets.Keys - {key}, buckets.Keys);
      assert (buckets - {key}).Keys == buckets.Keys - {key};
      buckets := buckets - {key};
    }

    /** Drops the buckets idle at `now` and says how many. */
    method EvictIdle(now: real) returns (dropped: nat)
      requires Valid()
      modifies this`buckets
      ensures Valid()
      ensures buckets == LruEvictIdle(old(buckets), now)
      ensures forall k :: k in buckets <==> k in old(buckets) && now - old(buckets)[k].bucket.lastSeen < 3600.0
      ensures forall k :: k in buckets ==> buckets[k] == old(buckets)[k]
      ensures dropped == |old(buckets)| - |buckets|
    {
      var before := |buckets|;
      SubsetSize(LruEvictIdle(buckets, now).Keys, buckets.Keys);
      buckets := map k | k in buckets && !Idle(buckets[k].bucket, now) :: buckets[k];
      dropped := before - |buckets|;
    }
  }

  lemma {:induction false} FreshIsFull(now: real, q: Quota)
    ensures q.capacity >= 1.0 ==> Consume(Fresh(q, now), now, q) == (Bucket(q.capacity - 1.0, now), Allow)
    ensures q.capacity < 1.0 ==> Consume(Fresh(q, now), now, q).1.Deny?
  {
    assert Gain(0.0, q.refill) == 0.0;
  }

  /** Storing a bucket under a new sequence makes its old pair stale and its new one live. */
  lemma {:induction false} StoredIsQueued(t: Table, hashOf: Key -> nat, order: seq<Access>, sequence: nat, key: Key, b: Bucket)
    requires Increasing(order, 0, sequence) && Queued(t, hashOf, order) && Distinct(t)
    ensures var t' := t[key := Entry(b, sequence)];
            Queued(t', hashOf, order + [Access(sequence, hashOf(key))]) && Distinct(t')
  {
    var t' := t[key := Entry(b, sequence)];
    forall k | k in t' && k != key
      ensures PairOf(t', hashOf, k) in order && t'[k].sequence < sequence
    {
      assert PairOf(t', hashOf, k) == PairOf(t, hashOf, k);
      QueuedIsWithin(order, 0, sequence, PairOf(t, hashOf, k));
    }
  }

  // ----- Every run -----

  datatype Op = Check(key: Key, now: real, quota: Quota) | Reset(key: Key) | EvictIdle(now: real)

  /** How many checks a history holds: the shard's clock. */
  function Checks(ops: seq<Op>): nat {
    if ops == [] then 0
    else Checks(ops[..|ops| - 1]) + if ops[|ops| - 1].Check? then 1 else 0
  }

  ghost function Run(ops: seq<Op>): Table {
    if ops == [] then map[]
    else Done(Run(ops[..|ops| - 1]), Checks(ops[..|ops| - 1]), ops[|ops| - 1])
  }

  /** What an operation does to the table. */
  ghost function Done(t: Table, clock: nat, op: Op): Table {
    match op
    case Check(key, now, q) => LruCheck(t, clock, key, now, q).0
    case Reset(key) => t - {key}
    case EvictIdle(now) => LruEvictIdle(t, now)
  }

  /** The number of a key's last check among all checks of the history; zero without one. */
  function LastCheck(ops: seq<Op>, key: Key): (n: nat)
    ensures n <= Checks(ops)
  {
    if ops == [] then 0
    else if ops[|ops| - 1].Check? && ops[|ops| - 1].key == key then Checks(ops)
    else LastCheck(ops[..|ops| - 1], key)
  }

  ghost predicate Exact(ops: seq<Op>, t: Table) {
    && |t| <= MAX_BUCKETS_PER_SHARD
    && forall k :: k in t ==> t[k].sequence + 1 == LastCheck(ops, k)
  }

  lemma {:induction false} MakeRoomFits(t: Table)
    requires |t| <= MAX_BUCKETS_PER_SHARD
    ensures |MakeRoom(t)| < MAX_BUCKETS_PER_SHARD
    ensures forall k :: k in MakeRoom(t) ==> k in t && MakeRoom(t)[k] == t[k]
  {
    hide Oldest;
    if |t| >= MAX_BUCKETS_PER_SHARD {
      assert t.Keys != {};
      assert MakeRoom(t).Keys == t.Keys - {Oldest(t)};
    }
  }

  lemma {:induction false} CheckStaysWithinBound(t: Table, clock: nat, key: Key, now: real, q: Quota)
    requires |t| <= MAX_BUCKETS_PER_SHARD
    ensures var after := LruCheck(t, clock, key, now, q).0;
            && |after| <= MAX_BUCKETS_PER_SHARD
            && key in after && after[key].sequence == clock
            && forall k :: k in after && k != key ==> k in t && after[k] == t[k]
  {
    MakeRoomFits(t);
    hide Consume, MakeRoom;
    var after := LruCheck(t, clock, key, now, q).0;
    assert after.Keys == (if key in t then t.Keys else MakeRoom(t).Keys + {key});
  }

  /**
   In every run the sequence stored with a bucket is the number of its key's
   last check in the history, and the table never outgrows its bound.
   */
  lemma {:induction false} RunIsExact(ops: seq<Op>)
    ensures Exact(ops, Run(ops)) && |Run(ops)| <= 6250
  {
    if ops != [] {
      hide Consume;
      var init, op := ops[..|ops| - 1], ops[|ops| - 1];
      RunIsExact(init);
      var t, after := Run(init), Run(ops);
      if op.Check? {
        CheckStaysWithinBound(t, Checks(init), op.key, op.now, op.quota);
      } else {
        assert after.Keys <= t.Keys;
        SubsetSize(after.Keys, t.Keys);
      }
    }
  }

  lemma {:induction false} NoTwoKeysShareALastCheck(ops: seq<Op>, j: Key, k: Key)
    requires 0 < LastCheck(ops, j) == LastCheck(ops, k)
    ensures j == k
  {
    if j != k {
      NoTwoKeysShareALastCheck(ops[..|ops| - 1], j, k);
    }
  }

  /**
   A check never evicts on a hit, and on a miss in a full shard it evicts
   exactly the live key whose last check lies furthest back in the history.
   */
  lemma {:induction false} EvictsTheLeastRecentlyChecked(ops: seq<Op>, key: Key, now: real, q: Quota)
    ensures var t := Run(ops);
            var after := LruCheck(t, Checks(ops), key, now, q).0;
            && (key in t ==> after.Keys == t.Keys)
            && (key !in t && |t| < MAX_BUCKETS_PER_SHARD ==> after.Keys == t.Keys + {key})
            && (key !in t && |t| >= MAX_BUCKETS_PER_SHARD ==>
                  && t.Keys != {}
                  && after.Keys == t.Keys - {Oldest(t)} + {key}
                  && forall k :: k in t && k != Oldest(t) ==> LastCheck(ops, Oldest(t)) < LastCheck(ops, k))
  {
    hide Consume;
    RunIsExact(ops);
    var t := Run(ops);
    if key !in t && |t| >= MAX_BUCKETS_PER_SHARD {
      assert t.Keys != {};
      forall k | k in t && k != Oldest(t) ensures LastCheck(ops, Oldest(t)) < LastCheck(ops, k) {
        if LastCheck(ops, Oldest(t)) == LastCheck(ops, k) { NoTwoKeysShareALastCheck(ops, Oldest(t), k); }
      }
    }
  }

  // ----- A key's decisions while its bucket survives -----

  /** When a key was checked from position `n` of a history on. */
  function TimesOf(ops: seq<Op>, n: nat, key: Key): (times: seq<real>)
    requires n <= |ops|
  {
    if n == |ops| then []
    else
      var op := ops[|ops| - 1];
      TimesOf(ops[..|ops| - 1], n, key) + if op.Check? && op.key == key then [op.now] else []
  }

  /** What those checks were told. */
  ghost function DecisionsFor(ops: seq<Op>, n: nat, key: Key): seq<Decision>
    requires n <= |ops|
  {
    if n == |ops| then []
    else
      var init, op := ops[..|ops| - 1], ops[|ops| - 1];
      DecisionsFor(init, n, key)
      + if op.Check? && op.key == key then [LruCheck(Run(init), Checks(init), key, op.now, op.quota).1] else []
  }

  /** The key's bucket is never reset or evicted after position `n`, and is only charged under `q`. */
  ghost predicate Survives(ops: seq<Op>, n: nat, key: Key, q: Quota)
    requires n <= |ops|
  {
    && key in Run(ops)
    && (n < |ops| ==>
          && Survives(ops[..|ops| - 1], n, key, q)
          && (ops[|ops| - 1].Check? && ops[|ops| - 1].key == key ==> ops[|ops| - 1].quota == q))
  }

  lemma {:induction false} SurvivesFromStart(ops: seq<Op>, n: nat, key: Key, q: Quota)
    requires n <= |ops| && Survives(ops, n, key, q)
    ensures key in Run(ops[..n])
  {
    if n < |ops| {
      SurvivesFromStart(ops[..|ops| - 1], n, key, q);
      assert ops[..|ops| - 1][..n] == ops[..n];
    } else {
      assert ops[..n] == ops;
    }
  }

  lemma {:induction false} RunAppend(b: Bucket, times: seq<real>, now: real, q: Quota)
    ensures After(b, times + [now], q) == Consume(After(b, times, q), now, q).0
    ensures Decisions(b, times + [now], q) == Decisions(b, times, q) + [Consume(After(b, times, q), now, q).1]
    decreases |times|
  {
    hide Consume;
    if times == [] {
      assert times + [now] == [now];
      assert After(b, [now], q) == After(Consume(b, now, q).0, [], q);
      assert Decisions(b, [now], q) == [Consume(b, now, q).1] + Decisions(Consume(b, now, q).0, [], q);
    } else {
      assert (times + [now])[1..] == times[1..] + [now];
      RunAppend(Consume(b, times[0], q).0, times[1..], now, q);
    }
  }

  /**
   While a key's bucket survives, whatever happens to other keys, it behaves as
   a token bucket of its own.
   */
  lemma {:induction false} SurvivingKeyIsItsOwnBucket(ops: seq<Op>, n: nat, key: Key, q: Quota)
    requires n <= |ops| && Survives(ops, n, key, q)
    ensures key in Run(ops[..n])
    ensures var start := Run(ops[..n])[key].bucket;
            && Run(ops)[key].bucket == After(start, TimesOf(ops, n, key), q)
            && DecisionsFor(ops, n, key) == Decisions(start, TimesOf(ops, n, key), q)
  {
    hide Consume;
    SurvivesFromStart(ops, n, key, q);
    if n == |ops| {
      assert ops[..n] == ops;
    } else {
      var init, op := ops[..|ops| - 1], ops[|ops| - 1];
      SurvivingKeyIsItsOwnBucket(init, n, key, q);
      assert init[..n] == ops[..n];
      var start := Run(ops[..n])[key].bucket;
      if op.Check? && op.key == key {
        RunAppend(start, TimesOf(init, n, key), op.now, q);
      } else {
        OthersLeaveItAlone(Run(init), Checks(init), op, key);
        assert TimesOf(ops, n, key) == TimesOf(init, n, key);
      }
    }
  }

  lemma {:induction false} OthersLeaveItAlone(t: Table, clock: nat, op: Op, key: Key)
    requires key in t && !(op.Check? && op.key == key)
    ensures op.Check? ==>
              var after := LruCheck(t, clock, op.key, op.now, op.quota).0;
              key in after ==> after[key] == t[key]
    ensures op.EvictIdle? && key in LruEvictIdle(t, op.now) ==> LruEvictIdle(t, op.now)[key] == t[key]
  {
    hide Consume;
  }

  // ----- From a miss on -----

  predicate ChecksKey(op: Op, key: Key) { op.Check? && op.key == key }

  /** Times and decisions from one position on are those from the next, with the first in front. */
  lemma {:induction false} FirstComesFirst(ops: seq<Op>, n: nat, key: Key)
    requires n < |ops|
    ensures TimesOf(ops, n, key) == (if ChecksKey(ops[n], key) then [ops[n].now] else []) + TimesOf(ops, n + 1, key)
    ensures DecisionsFor(ops, n, key) ==
            (if ChecksKey(ops[n], key) then [LruCheck(Run(ops[..n]), Checks(ops[..n]), key, ops[n].now, ops[n].quota).1] else [])
            + DecisionsFor(ops, n + 1, key)
  {
    hide LruCheck;
    var init := ops[..|ops| - 1];
    if n == |ops| - 1 {
      assert ops[..n] == init;
      assert TimesOf(init, n, key) == [] && DecisionsFor(init, n, key) == [];
    } else {
      FirstComesFirst(init, n, key);
      assert init[..n] == ops[..n] && init[n] == ops[n];
    }
  }

  /** A key that is not there, checked once and surviving from then on, is a full bucket of its own. */
  lemma {:induction false} MissStartsFull(ops: seq<Op>, n: nat, key: Key, q: Quota)
    requires n < |ops| && ops[n].Check? && ops[n].key == key && ops[n].quota == q && key !in Run(ops[..n])
    requires Survives(ops, n + 1, key, q)
    ensures var full, times := Bucket(q.capacity, ops[n].now), TimesOf(ops, n, key);
            && DecisionsFor(ops, n, key) == Decisions(full, times, q)
            && key in Run(ops) && Run(ops)[key].bucket == After(full, times, q)
  {
    var now, before := ops[n].now, ops[..n];
    SurvivingKeyIsItsOwnBucket(ops, n + 1, key, q);
    assert ops[..n + 1][..n] == before && ops[..n + 1][n] == ops[n];
    assert Run(ops[..n + 1]) == LruCheck(Run(before), Checks(before), key, now, q).0;
    assert Run(ops[..n + 1])[key].bucket == Consume(Bucket(q.capacity, now), now, q).0;
    FirstComesFirst(ops, n, key);
    hide Consume, Survives;
    var times := TimesOf(ops, n, key);
    assert times[0] == now && times[1..] == TimesOf(ops, n + 1, key);
  }

  /** So its first checks are allowed, as many as it has tokens, whatever the shard's other keys do. */
  lemma {:induction false} NewKeyGetsItsCapacity(ops: seq<Op>, n: nat, key: Key, q: Quota, i: nat)
    requires n < |ops| && ops[n].Check? && ops[n].key == key && ops[n].quota == q && key !in Run(ops[..n])
    requires Survives(ops, n + 1, key, q)
    requires 0.0 <= q.refill && (i + 1) as real <= q.capacity && i < |DecisionsFor(ops, n, key)|
    ensures DecisionsFor(ops, n, key)[i] == Allow
  {
    MissStartsFull(ops, n, key, q);
    hide Survives, Run, LruCheck;
    var full, times := Bucket(q.capacity, ops[n].now), TimesOf(ops, n, key);
    DecisionsOfPrefix(full, times, q, i + 1);
    TokensBuyChecks(full, times[..i + 1], q);
    assert Decisions(full, times, q)[..i + 1][i] == Decisions(full, times, q)[i];
  }

  // ----- Idle eviction in a run -----

  /** Operations that do not check a key leave no trace among its times and decisions. */
  lemma {:induction false} SkipQuiet(ops: seq<Op>, n: nat, m: nat, key: Key)
    requires n <= m <= |ops| && forall i :: n <= i < m ==> !ChecksKey(ops[i], key)
    ensures TimesOf(ops, n, key) == TimesOf(ops, m, key) && DecisionsFor(ops, n, key) == DecisionsFor(ops, m, key)
    decreases m - n
  {
    if n < m {
      FirstComesFirst(ops, n, key);
      SkipQuiet(ops, n + 1, m, key);
      hide LruCheck, Run, TimesOf, DecisionsFor;
      assert [] + TimesOf(ops, n + 1, key) == TimesOf(ops, n + 1, key);
      assert [] + DecisionsFor(ops, n + 1, key) == DecisionsFor(ops, n + 1, key);
    }
  }

  /** Only a check of its own brings a key back. */
  lemma {:induction false} AbsentStaysAbsent(ops: seq<Op>, n: nat, m: nat, key: Key)
    requires n <= m <= |ops| && key !in Run(ops[..n]) && forall i :: n <= i < m ==> !ChecksKey(ops[i], key)
    ensures key !in Run(ops[..m])
    decreases m - n
  {
    if n < m {
      AbsentStaysAbsent(ops, n, m - 1, key);
      assert ops[..m][..m - 1] == ops[..m - 1] && ops[..m][m - 1] == ops[m - 1];
      if key in Run(ops[..m]) { KeptFromBefore(Run(ops[..m - 1]), Checks(ops[..m - 1]), ops[m - 1], key); }
    }
  }

  lemma {:induction false} TimesOfSuffix(before: seq<Op>, after: seq<Op>, key: Key)
    ensures TimesOf(before + after, |before|, key) == TimesOf(after, 0, key)
  {
    if after == [] {
      assert before + after == before;
    } else {
      var init := after[..|after| - 1];
      assert (before + after)[..|before + after| - 1] == before + init;
      TimesOfSuffix(before, init, key);
    }
  }

  /** The run with the eviction: the next check finds no bucket. */
  lemma {:induction false} EvictedSide(before: seq<Op>, now: real, quiet: seq<Op>, later: seq<Op>, key: Key, q: Quota)
    requires key in Run(before) && now - Run(before)[key].bucket.lastSeen >= 3600.0
    requires forall op :: op in quiet ==> !ChecksKey(op, key)
    requires later != [] && ChecksKey(later[0], key) && later[0].quota == q
    requires Survives(before + [EvictIdle(now)] + quiet + later, |before| + 1 + |quiet| + 1, key, q)
    ensures var ops, full, times := before + [EvictIdle(now)] + quiet + later, Bucket(q.capacity, later[0].now), TimesOf(later, 0, key);
            && DecisionsFor(ops, |before| + 1, key) == Decisions(full, times, q)
            && key in Run(ops) && Run(ops)[key].bucket == After(full, times, q)
  {
    var first := before + [EvictIdle(now)];
    EvictionRemoves(before, now, key);
    hide Run, Survives, TimesOf, DecisionsFor, After, Decisions;
    AbsentSide(first, quiet, later, key, q);
  }

  lemma {:induction false} EvictionRemoves(before: seq<Op>, now: real, key: Key)
    requires key in Run(before) && now - Run(before)[key].bucket.lastSeen >= 3600.0
    ensures key !in Run(before + [EvictIdle(now)])
  {
    assert (before + [EvictIdle(now)])[..|before|] == before;
  }

  /** A key without a bucket, from its next check on. */
  lemma {:induction false} AbsentSide(first: seq<Op>, quiet: seq<Op>, later: seq<Op>, key: Key, q: Quota)
    requires key !in Run(first) && forall op :: op in quiet ==> !ChecksKey(op, key)
    requires later != [] && ChecksKey(later[0], key) && later[0].quota == q
    requires Survives(first + quiet + later, |first| + |quiet| + 1, key, q)
    ensures var ops, full, times := first + quiet + later, Bucket(q.capacity, later[0].now), TimesOf(later, 0, key);
            && DecisionsFor(ops, |first|, key) == Decisions(full, times, q)
            && key in Run(ops) && Run(ops)[key].bucket == After(full, times, q)
  {
    hide Survives, Run, LruCheck, TimesOf, DecisionsFor, After, Decisions;
    var ops, n := first + quiet + later, |first| + |quiet|;
    assert ops[..|first|] == first;
    forall i | |first| <= i < n ensures !ChecksKey(ops[i], key) { assert ops[i] == quiet[i - |first|] && ops[i] in quiet; }
    assert ops[n] == later[0];
    AbsentStaysAbsent(ops, |first|, n, key);
    SkipQuiet(ops, |first|, n, key);
    TimesOfSuffix(first + quiet, later, key);
    MissStartsFull(ops, n, key, q);
  }

  /** The run without it: the bucket is still there. */
  lemma {:induction false} KeptSide(before: seq<Op>, quiet: seq<Op>, later: seq<Op>, key: Key, q: Quota)
    requires forall op :: op in quiet ==> !ChecksKey(op, key)
    requires Survives(before + quiet + later, |before|, key, q)
    ensures var ops, times := before + quiet + later, TimesOf(later, 0, key);
            && key in Run(before) && DecisionsFor(ops, |before|, key) == Decisions(Run(before)[key].bucket, times, q)
            && key in Run(ops) && Run(ops)[key].bucket == After(Run(before)[key].bucket, times, q)
  {
    hide Run, LruCheck, TimesOf, DecisionsFor, After, Decisions;
    var ops, n := before + quiet + later, |before| + |quiet|;
    SurvivingKeyIsItsOwnBucket(ops, |before|, key, q);
    hide Survives;
    assert ops[..|before|] == before;
    forall i | |before| <= i < n ensures !ChecksKey(ops[i], key) { assert ops[i] == quiet[i - |before|] && ops[i] in quiet; }
    SkipQuiet(ops, |before|, n, key);
    TimesOfSuffix(before + quiet, later, key);
  }

  /**
   Eviction in a run: a key idle at an eviction, under a quota that refills in
   the idle time, is told the same afterwards, and is left with the same bucket,
   as in the run without that eviction; `quiet` are the operations until its
   next check.
   */
  lemma {:induction false} IdleEvictionIsInvisible(before: seq<Op>, now: real, quiet: seq<Op>, later: seq<Op>, key: Key, q: Quota)
    requires key in Run(before) && now - Run(before)[key].bucket.lastSeen >= 3600.0 && Run(before)[key].bucket.tokens >= 0.0
    requires forall op :: op in quiet ==> !ChecksKey(op, key)
    requires later != [] && ChecksKey(later[0], key) && later[0].quota == q && later[0].now >= now
    requires 0.0 <= q.capacity <= q.refill * 3600.0 && 0.0 <= q.refill
    requires Survives(before + quiet + later, |before|, key, q)
    requires Survives(before + [EvictIdle(now)] + quiet + later, |before| + 1 + |quiet| + 1, key, q)
    ensures var evicted, kept := before + [EvictIdle(now)] + quiet + later, before + quiet + later;
            && DecisionsFor(evicted, |before| + 1, key) == DecisionsFor(kept, |before|, key)
            && key in Run(evicted) && key in Run(kept) && Run(evicted)[key].bucket == Run(kept)[key].bucket
  {
    FirstComesFirst(later, 0, key);
    var times := TimesOf(later, 0, key);
    assert times[0] == later[0].now;
    hide Survives, Run, LruCheck, TimesOf, DecisionsFor, After, Decisions;
    EvictedSide(before, now, quiet, later, key, q);
    KeptSide(before, quiet, later, key, q);
    EvictedKeySeesTheSameFuture(Run(before)[key].bucket, times, q);
  }

  // ----- What every run gives a bucket -----

  /** Quotas are not negative, and the clock the checks see does not run backwards. */
  ghost predicate Orderly(ops: seq<Op>) {
    && (forall i :: 0 <= i < |ops| && ops[i].Check? ==> 0.0 <= ops[i].quota.capacity && 0.0 <= ops[i].quota.refill)
    && (forall i, j :: 0 <= i < j < |ops| && ops[i].Check? && ops[j].Check? ==> ops[i].now <= ops[j].now)
  }

  lemma {:induction false} OrderlyPrefix(ops: seq<Op>, n: nat)
    requires Orderly(ops) && n <= |ops|
    ensures Orderly(ops[..n])
  {
  }

  /** No reached bucket owes tokens, and none was last seen after a check still to come. */
  lemma {:induction false} ReachedBucketsAreReasonable(ops: seq<Op>, key: Key, now: real)
    requires Orderly(ops) && key in Run(ops)
    requires forall i :: 0 <= i < |ops| && ops[i].Check? ==> ops[i].now <= now
    ensures Run(ops)[key].bucket.tokens >= 0.0 && Run(ops)[key].bucket.lastSeen <= now
  {
    var init, op := ops[..|ops| - 1], ops[|ops| - 1];
    OrderlyPrefix(ops, |ops| - 1);
    if op.Check? && op.key == key {
      forall i | 0 <= i < |init| && init[i].Check? ensures init[i].now <= op.now {
        assert init[i] == ops[i];
      }
      if key in Run(init) { ReachedBucketsAreReasonable(init, key, op.now); }
      StartedBucketIsReasonable(Run(init), Checks(init), op);
    } else {
      forall i | 0 <= i < |init| && init[i].Check? ensures init[i].now <= now {
        assert init[i] == ops[i];
      }
      KeptFromBefore(Run(init), Checks(init), op, key);
      ReachedBucketsAreReasonable(init, key, now);
    }
  }

  lemma {:induction false} KeptFromBefore(t: Table, clock: nat, op: Op, key: Key)
    requires !(op.Check? && op.key == key) && key in Done(t, clock, op)
    ensures key in t && Done(t, clock, op)[key] == t[key]
  {
    hide Consume, Oldest;
  }

  lemma {:induction false} StartedBucketIsReasonable(t: Table, clock: nat, op: Op)
    requires op.Check? && 0.0 <= op.quota.capacity && 0.0 <= op.quota.refill
    requires op.key in t ==> t[op.key].bucket.tokens >= 0.0 && t[op.key].bucket.lastSeen <= op.now
    ensures var after := LruCheck(t, clock, op.key, op.now, op.quota).0;
            op.key in after && after[op.key].bucket.tokens >= 0.0 && after[op.key].bucket.lastSeen == op.now
  {
    var start := if op.key in t then t[op.key].bucket else Fresh(op.quota, op.now);
    ConsumeKeepsReasonable(start, op.now, op.quota);
    hide Consume, MakeRoom;
  }

  ghost predicate NonDecreasing(times: seq<real>) { forall i, j :: 0 <= i < j < |times| ==> times[i] <= times[j] }

  ghost predicate Within(times: seq<real>, low: real, high: real) {
    forall i :: 0 <= i < |times| ==> low <= times[i] <= high
  }

  /** A key's checks lie where all checks lie. */
  lemma {:induction false} TimesLieWithin(ops: seq<Op>, n: nat, key: Key, low: real, high: real)
    requires n <= |ops| && forall k :: n <= k < |ops| && ops[k].Check? ==> low <= ops[k].now <= high
    ensures Within(TimesOf(ops, n, key), low, high)
  {
    if n < |ops| {
      var init := ops[..|ops| - 1];
      forall k | n <= k < |init| && init[k].Check? ensures low <= init[k].now <= high {
        assert init[k] == ops[k];
      }
      TimesLieWithin(init, n, key, low, high);
    }
  }

  /** Two checks of an orderly run, the earlier and the later one. */
  lemma {:induction false} ChecksAreOrdered(ops: seq<Op>, i: nat, j: nat)
    requires Orderly(ops) && i <= j < |ops| && ops[i].Check? && ops[j].Check?
    ensures ops[i].now <= ops[j].now
  {
  }

  /** The earliest time among the checks from `n` on, or any time if there are none. */
  lemma {:induction false} FirstCheck(ops: seq<Op>, n: nat, last: real) returns (low: real)
    requires n <= |ops| && Orderly(ops)
    ensures forall k :: n <= k < |ops| && ops[k].Check? ==> low <= ops[k].now
    decreases |ops| - n
  {
    if n == |ops| { low := last; }
    else if ops[n].Check? {
      low := ops[n].now;
      forall k | n <= k < |ops| && ops[k].Check? ensures low <= ops[k].now { ChecksAreOrdered(ops, n, k); }
    } else { low := FirstCheck(ops, n + 1, last); }
  }

  lemma {:induction false} TimesAreOrdered(ops: seq<Op>, n: nat, key: Key)
    requires n <= |ops| && Orderly(ops)
    ensures NonDecreasing(TimesOf(ops, n, key))
  {
    if n < |ops| {
      var init, op := ops[..|ops| - 1], ops[|ops| - 1];
      OrderlyPrefix(ops, |ops| - 1);
      TimesAreOrdered(init, n, key);
      if op.Check? && op.key == key {
        var low := FirstCheck(ops, n, op.now);
        forall k | n <= k < |init| && init[k].Check? ensures low <= init[k].now <= op.now {
          assert init[k] == ops[k];
          ChecksAreOrdered(ops, k, |ops| - 1);
        }
        TimesLieWithin(init, n, key, low, op.now);
      }
    }
  }

  /** A surviving key that was checked was checked under its quota, which an orderly run keeps from being negative. */
  lemma {:induction false} CheckedQuota(ops: seq<Op>, n: nat, key: Key, q: Quota)
    requires n <= |ops| && Survives(ops, n, key, q) && Orderly(ops) && TimesOf(ops, n, key) != []
    ensures 0.0 <= q.capacity && 0.0 <= q.refill
  {
    var op := ops[|ops| - 1];
    if !(op.Check? && op.key == key) {
      OrderlyPrefix(ops, |ops| - 1);
      CheckedQuota(ops[..|ops| - 1], n, key, q);
    }
  }

  /**
   The bound the limiter exists for: in every orderly run, while its bucket
   survives, a key is allowed at most its capacity plus what refills between its
   first and last check, however the shard's other keys are checked, reset or
   evicted, and whatever quota filled its bucket before.
   */
  lemma {:induction false} SurvivingKeyIsRateBounded(ops: seq<Op>, n: nat, key: Key, q: Quota)
    requires n <= |ops| && Survives(ops, n, key, q) && Orderly(ops) && TimesOf(ops, n, key) != []
    ensures var times := TimesOf(ops, n, key);
            Allows(DecisionsFor(ops, n, key)) as real
            <= q.capacity + Gain(times[|times| - 1] - times[0], q.refill)
  {
    hide Consume, Gain;
    var times := TimesOf(ops, n, key);
    SurvivingKeyIsItsOwnBucket(ops, n, key, q);
    TimesAreOrdered(ops, n, key);
    CheckedQuota(ops, n, key, q);
    StartIsReasonable(ops, n, key);
    hide Survives, Run, Orderly;
    RateBound(Run(ops[..n])[key].bucket, times, q, 0, |times|);
    assert DecisionsFor(ops, n, key)[0..|times|] == DecisionsFor(ops, n, key);
  }

  lemma {:induction false} StartIsReasonable(ops: seq<Op>, n: nat, key: Key)
    requires n <= |ops| && Orderly(ops) && key in Run(ops[..n]) && TimesOf(ops, n, key) != []
    ensures var start := Run(ops[..n])[key].bucket; start.tokens >= 0.0 && start.lastSeen <= TimesOf(ops, n, key)[0]
  {
    var first := TimesOf(ops, n, key)[0];
    OrderlyPrefix(ops, n);
    forall i | 0 <= i < n && ops[..n][i].Check? ensures ops[..n][i].now <= first {
      assert ops[..n][i] == ops[i];
      var high := LastCheckTime(ops, ops[i].now);
      forall k | n <= k < |ops| && ops[k].Check? ensures ops[i].now <= ops[k].now <= high {
        ChecksAreOrdered(ops, i, k);
      }
      TimesLieWithin(ops, n, key, ops[i].now, high);
    }
    ReachedBucketsAreReasonable(ops[..n], key, first);
  }

  /** A time no check of the run is later than. */
  lemma {:induction false} LastCheckTime(ops: seq<Op>, from: real) returns (high: real)
    requires Orderly(ops)
    ensures forall k :: 0 <= k < |ops| && ops[k].Check? ==> ops[k].now <= high
  {
    if ops == [] { high := from; }
    else if ops[|ops| - 1].Check? {
      high := ops[|ops| - 1].now;
      forall k | 0 <= k < |ops| && ops[k].Check? ensures ops[k].now <= high { ChecksAreOrdered(ops, k, |ops| - 1); }
    } else {
      OrderlyPrefix(ops, |ops| - 1);
      high := LastCheckTime(ops[..|ops| - 1], from);
      forall k | 0 <= k < |ops| && ops[k].Check? ensures ops[k].now <= high {
        assert ops[..|ops| - 1][k] == ops[k];
      }
    }
  }
}
