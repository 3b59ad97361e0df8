/** InMemoryWebhookStore: idempotency keys with a fixed time to live and a capacity. */
module WebhookStore {
  import opened Logs

  // Below, `== true` makes the verifier pass a predicate on as one fact instead of taking it apart.

  /** One item of the `OrderedDict`, oldest insertion first. A key is a provider and a webhook id. */
  datatype Key = Key(provider: string, webhookId: string)
  datatype Entry = Entry(key: Key, expiry: real)

  function Holds(seen: seq<Entry>, key: Key): bool {
    exists i :: 0 <= i < |seen| && seen[i].key == key
  }

  function Purged(seen: seq<Entry>, now: real, max: int): seq<Entry> {
    if seen == [] || (seen[0].expiry > now && |seen| <= max) then seen else Purged(seen[1..], now, max)
  }

  function Without(seen: seq<Entry>, key: Key): seq<Entry> {
    if seen == [] then []
    else
      var rest := Without(seen[..|seen| - 1], key);
      if seen[|seen| - 1].key == key then rest else rest + [seen[|seen| - 1]]
  }

  class InMemoryWebhookStore {
    const ttl: real
    const max: int
    var seen: seq<Entry>

    constructor (ttl: real, max: int)
      ensures this.ttl == ttl && this.max == max && seen == [] && DistinctKeys(seen)
    {
      this.ttl, this.max := ttl, max;
      seen := [];
    }

    method Purge(now: real)
      requires DistinctKeys(seen)
      modifies this
      ensures DistinctKeys(seen) && seen == Purged(old(seen), now, max)
    {
      while seen != []
        invariant DistinctKeys(seen) && Purged(seen, now, max) == Purged(old(seen), now, max)
        decreases |seen|
      {
        if seen[0].expiry > now && |seen| <= max {
          break;
        }
        seen := seen[1..];
      }
    }

    /** The clock is read twice: `now` for the purge, `later` for the new expiry. */
    method RecordIfNew(key: Key, now: real, later: real) returns (isNew: bool)
      requires DistinctKeys(seen)
      modifies this
      ensures DistinctKeys(seen) && Holds(seen, key)
      ensures isNew == IsNew(max, old(seen), key, now)
      ensures seen == AfterRecord(ttl, max, old(seen), key, now, later)
    {
      Purge(now);
      if Holds(seen, key) {
        return false;
      }
      seen := seen + [Entry(key, later + ttl)];
      assert seen[|seen| - 1].key == key;
      return true;
    }

    /** `pop(key, None)`: the entry of the key goes, if there is one; every other stays in its place. */
    method Forget(key: Key)
      requires DistinctKeys(seen)
      modifies this
      ensures DistinctKeys(seen) && !Holds(seen, key)
      ensures !Holds(old(seen), key) ==> seen == old(seen)
      ensures Holds(old(seen), key) ==>
                exists k :: 0 <= k < |old(seen)| && old(seen)[k].key == key
                    && seen == old(seen)[..k] + old(seen)[k + 1..]
      ensures seen == Without(old(seen), key)
    {
      var k := 0;
      while k < |seen| && seen[k].key != key
        invariant 0 <= k <= |seen| && forall j :: 0 <= j < k ==> seen[j].key != key
      {
        k := k + 1;
      }
      if k < |seen| {
        WithoutIsGap(seen, key, k);
        seen := seen[..k] + seen[k + 1..];
      } else {
        WithoutAbsent(seen, key);
      }
    }
  }

  lemma {:induction false} WithoutAbsent(seen: seq<Entry>, key: Key)
    requires forall j :: 0 <= j < |seen| ==> seen[j].key != key
    ensures Without(seen, key) == seen
  {
    if seen != [] {
      WithoutAbsent(seen[..|seen| - 1], key);
    }
  }

  lemma {:induction false} WithoutIsGap(seen: seq<Entry>, key: Key, k: nat)
    requires DistinctKeys(seen) && k < |seen| && seen[k].key == key
    ensures Without(seen, key) == seen[..k] + seen[k + 1..]
  {
    var front := seen[..|seen| - 1];
    if k == |seen| - 1 {
      WithoutAbsent(front, key);
    } else {
      WithoutIsGap(front, key, k);
      assert front[k + 1..] + [seen[|seen| - 1]] == seen[k + 1..];
    }
  }

  function IsNew(max: int, seen: seq<Entry>, key: Key, now: real): bool {
    !Holds(Purged(seen, now, max), key)
  }

  function AfterRecord(ttl: real, max: int, seen: seq<Entry>, key: Key, now: real, later: real): seq<Entry> {
    if IsNew(max, seen, key, now) then Purged(seen, now, max) + [Entry(key, later + ttl)] else Purged(seen, now, max)
  }

  // ---- histories ------------------------------------------------------------

  datatype Op = Record(key: Key, now: real, later: real) | Forget(key: Key)

  /** The store after one more operation. */
  function AfterOp(ttl: real, max: int, seen: seq<Entry>, op: Op): seq<Entry> {
    match op
    case Record(key, now, later) => AfterRecord(ttl, max, seen, key, now, later)
    case Forget(key) => Without(seen, key)
  }

  function Seen(ttl: real, max: int, ops: seq<Op>): seq<Entry> {
    if ops == [] then [] else AfterOp(ttl, max, Seen(ttl, max, ops[..|ops| - 1]), ops[|ops| - 1])
  }

  /** Operation `i` recorded its key and answered True. */
  predicate Recorded(ttl: real, max: int, ops: seq<Op>, i: nat)
    requires i < |ops|
  {
    ops[i].Record? && IsNew(max, Seen(ttl, max, ops[..i]), ops[i].key, ops[i].now)
  }

  /** The distinct keys that operations `i`, …, `j - 1` recorded. */
  function NewerKeys(ttl: real, max: int, ops: seq<Op>, i: nat, j: nat): set<Key>
    requires i <= j <= |ops|
    decreases j
  {
    if i == j then {}
    else NewerKeys(ttl, max, ops, i, j - 1) + if Recorded(ttl, max, ops, j - 1) then {ops[j - 1].key} else {}
  }

  /** The clock never goes back. */
  ghost predicate Monotone(ops: seq<Op>) {
    && (forall i :: 0 <= i < |ops| && ops[i].Record? ==> ops[i].now <= ops[i].later)
    && (forall i, j :: 0 <= i < j < |ops| && ops[i].Record? && ops[j].Record? ==> ops[i].later <= ops[j].now)
  }

  ghost predicate ExpiryOrder(seen: seq<Entry>) {
    forall i, j :: 0 <= i < j < |seen| ==> seen[i].expiry <= seen[j].expiry
  }

  ghost predicate DistinctKeys(seen: seq<Entry>) {
    forall i, j :: 0 <= i < j < |seen| ==> seen[i].key != seen[j].key
  }

  /** A purge drops from the front only, and stops at an entry that is live and within capacity. */
  lemma {:induction false} PurgedIsTail(seen: seq<Entry>, now: real, max: int)
    ensures |Purged(seen, now, max)| <= |seen|
    ensures Purged(seen, now, max) == seen[|seen| - |Purged(seen, now, max)|..]
    ensures Purged(seen, now, max) != [] ==>
              Purged(seen, now, max)[0].expiry > now && |Purged(seen, now, max)| <= max
    ensures forall p :: 0 <= p < |seen| && seen[p].expiry > now && |seen| - p <= max ==>
            |Purged(seen, now, max)| >= |seen| - p
  {
    if seen != [] && !(seen[0].expiry > now && |seen| <= max) {
      PurgedIsTail(seen[1..], now, max);
      forall p | 0 <= p < |seen| && seen[p].expiry > now && |seen| - p <= max
        ensures |Purged(seen, now, max)| >= |seen| - p
      {
        assert p > 0 && seen[1..][p - 1] == seen[p];
      }
    }
  }

  lemma {:induction false} WithoutMembers(seen: seq<Entry>, key: Key)
    ensures forall e :: e in Without(seen, key) <==> e in seen && e.key != key
    ensures |Without(seen, key)| <= |seen|
  {
    if seen != [] {
      WithoutMembers(seen[..|seen| - 1], key);
      assert seen == seen[..|seen| - 1] + [seen[|seen| - 1]];
    }
  }

  lemma {:induction false} WithoutOrder(seen: seq<Entry>, key: Key)
    requires ExpiryOrder(seen) && DistinctKeys(seen)
    ensures ExpiryOrder(Without(seen, key)) && DistinctKeys(Without(seen, key))
  {
    if seen != [] {
      var front, last := seen[..|seen| - 1], seen[|seen| - 1];
      WithoutOrder(front, key);
      WithoutMembers(front, key);
      var rest := Without(front, key);
      forall i | 0 <= i < |rest| ensures rest[i].expiry <= last.expiry && rest[i].key != last.key {
        assert rest[i] in front;
      }
    }
  }

  ghost predicate NotAfter(seen: seq<Entry>, bound: real) {
    forall i :: 0 <= i < |seen| ==> seen[i].expiry <= bound
  }

  function LastReading(ops: seq<Op>): Option<real> {
    if ops == [] then None
    else match ops[|ops| - 1]
      case Record(_, _, later) => Some(later)
      case Forget(_) => LastReading(ops[..|ops| - 1])
  }

  lemma {:induction false} LastReadingIsPast(ops: seq<Op>, now: real)
    requires Monotone(ops) && forall i :: 0 <= i < |ops| && ops[i].Record? ==> ops[i].later <= now
    ensures LastReading(ops).Some? ==> LastReading(ops).value <= now
  {
    if ops != [] && ops[|ops| - 1].Forget? {
      LastReadingIsPast(ops[..|ops| - 1], now);
    }
  }

  /** No expiry lies more than the time to live after the last reading of the clock. */
  ghost predicate Bounded(ttl: real, ops: seq<Op>, seen: seq<Entry>) {
    if LastReading(ops).None? then seen == [] else NotAfter(seen, LastReading(ops).value + ttl)
  }

  lemma RecordKeepsOrder(ttl: real, max: int, seen: seq<Entry>, key: Key, now: real, later: real)
    requires ExpiryOrder(seen) && DistinctKeys(seen) && NotAfter(seen, later + ttl)
    ensures var after := AfterRecord(ttl, max, seen, key, now, later);
      && ExpiryOrder(after) && DistinctKeys(after) && NotAfter(after, later + ttl)
      && |after| <= (if max > 0 then max else 0) + 1
  {
    PurgedIsTail(seen, now, max);
  }

  lemma ForgetKeepsOrder(seen: seq<Entry>, key: Key, bound: real)
    requires ExpiryOrder(seen) && DistinctKeys(seen)
    ensures ExpiryOrder(Without(seen, key)) && DistinctKeys(Without(seen, key)) && |Without(seen, key)| <= |seen|
    ensures NotAfter(seen, bound) ==> NotAfter(Without(seen, key), bound)
  {
    WithoutOrder(seen, key);
    WithoutMembers(seen, key);
    forall i | 0 <= i < |Without(seen, key)| ensures Without(seen, key)[i] in seen {
      assert Without(seen, key)[i] in Without(seen, key);
    }
  }

  /** Insertion order is always expiry order, keys are distinct, and at most one entry more than the
      capacity is ever held. */
  lemma {:induction false} StoreStaysOrdered(ttl: real, max: int, ops: seq<Op>)
    requires Monotone(ops)
    ensures ExpiryOrder(Seen(ttl, max, ops)) && DistinctKeys(Seen(ttl, max, ops))
    ensures |Seen(ttl, max, ops)| <= (if max > 0 then max else 0) + 1
    ensures Bounded(ttl, ops, Seen(ttl, max, ops))
  {
    if ops != [] {
      var front, last := ops[..|ops| - 1], ops[|ops| - 1];
      var before := Seen(ttl, max, front);
      StoreStaysOrdered(ttl, max, front);
      match last
      case Record(key, now, later) =>
        forall i | 0 <= i < |front| && front[i].Record? ensures front[i].later <= later { assert ops[i] == front[i]; }
        LastReadingIsPast(front, later);
        RecordKeepsOrder(ttl, max, before, key, now, later);
      case Forget(key) =>
        ForgetKeepsOrder(before, key, if LastReading(front).Some? then LastReading(front).value + ttl else 0.0);
    }
  }

  // ---- when a key can be new again -------------------------------------------

  /** Entry `e` is held, and every entry inserted after it has its key among `newer`. */
  ghost predicate Kept(seen: seq<Entry>, e: Entry, newer: set<Key>) {
    exists p :: KeptAt(seen, e, newer, p)
  }

  ghost predicate KeptAt(seen: seq<Entry>, e: Entry, newer: set<Key>, p: int) {
    0 <= p < |seen| && seen[p] == e && forall q :: p < q < |seen| ==> seen[q].key in newer
  }

  lemma {:induction false} FewKeys(seen: seq<Entry>, keys: set<Key>)
    requires DistinctKeys(seen) && forall q :: 0 <= q < |seen| ==> seen[q].key in keys
    ensures |seen| <= |keys|
  {
    if seen != [] {
      FewKeys(seen[1..], keys - {seen[0].key});
      assert |keys - {seen[0].key}| == |keys| - 1;
    }
  }

  lemma KeptThroughPurge(seen: seq<Entry>, e: Entry, newer: set<Key>, now: real, max: int)
    requires DistinctKeys(seen) && Kept(seen, e, newer) && e.expiry > now && |newer| < max
    ensures Kept(Purged(seen, now, max), e, newer)
  {
    var p :| KeptAt(seen, e, newer, p);
    FewKeys(seen[p + 1..], newer);
    PurgedIsTail(seen, now, max);
    var rest := Purged(seen, now, max);
    var d := |seen| - |rest|;
    forall q | p - d < q < |rest| ensures rest[q].key in newer {
      assert rest[q] == seen[q + d];
    }
    assert KeptAt(rest, e, newer, p - d);
  }

  lemma {:induction false} KeptThroughForget(seen: seq<Entry>, e: Entry, newer: set<Key>, key: Key)
    requires Kept(seen, e, newer) && e.key != key
    ensures Kept(Without(seen, key), e, newer)
  {
    var p :| KeptAt(seen, e, newer, p);
    var front := seen[..|seen| - 1];
    var rest := Without(front, key);
    if p == |seen| - 1 {
      assert KeptAt(Without(seen, key), e, newer, |rest|);
    } else {
      assert KeptAt(front, e, newer, p);
      KeptThroughForget(front, e, newer, key);
      var q :| KeptAt(rest, e, newer, q);
      assert KeptAt(Without(seen, key), e, newer, q);
    }
  }

  lemma KeptThroughInsert(seen: seq<Entry>, e: Entry, newer: set<Key>, next: Entry)
    requires Kept(seen, e, newer)
    ensures Kept(seen + [next], e, newer + {next.key})
  {
    var p :| KeptAt(seen, e, newer, p);
    assert KeptAt(seen + [next], e, newer + {next.key}, p);
  }

  /** The entry that operation `i` recorded. */
  function EntryOf(ttl: real, op: Op): Entry
    requires op.Record?
  {
    Entry(op.key, op.later + ttl)
  }

  /** An entry that is still within its time, its key not forgotten and the newer keys too few to push it
      out, outlives an operation. */
  lemma KeptThroughOp(ttl: real, max: int, seen: seq<Entry>, e: Entry, newer: set<Key>, op: Op)
    requires DistinctKeys(seen) && Kept(seen, e, newer) && |newer| < max
    requires op != Forget(e.key) && (op.Record? ==> op.now < e.expiry)
    ensures Kept(AfterOp(ttl, max, seen, op), e, if op.Record?
            && IsNew(max, seen, op.key, op.now) then newer + {op.key} else newer)
  {
    match op
    case Record(key, now, later) =>
      KeptThroughPurge(seen, e, newer, now, max);
      KeptThroughInsert(Purged(seen, now, max), e, newer, Entry(key, later + ttl));
    case Forget(key) => KeptThroughForget(seen, e, newer, key);
  }

  lemma JustKept(ttl: real, max: int, seen: seq<Entry>, op: Op)
    requires op.Record? && IsNew(max, seen, op.key, op.now)
    ensures Kept(AfterOp(ttl, max, seen, op), EntryOf(ttl, op), {})
  {
    assert KeptAt(AfterOp(ttl, max, seen, op), EntryOf(ttl, op), {}, |Purged(seen, op.now, max)|);
  }

  lemma SeenStep(ttl: real, max: int, ops: seq<Op>, j: nat)
    requires 0 < j <= |ops|
    ensures Seen(ttl, max, ops[..j]) == AfterOp(ttl, max, Seen(ttl, max, ops[..j - 1]), ops[j - 1])
  {
    assert ops[..j][..j - 1] == ops[..j - 1];
  }

  lemma KeptOneMore(ttl: real, max: int, ops: seq<Op>, e: Entry, newer: set<Key>, j: nat)
    requires Monotone(ops) && 0 < j <= |ops| && Kept(Seen(ttl, max, ops[..j - 1]), e, newer) && |newer| < max
    requires ops[j - 1] != Forget(e.key) && (ops[j - 1].Record? ==> ops[j - 1].now < e.expiry)
    ensures Kept(Seen(ttl, max, ops[..j]), e,
                 newer + if Recorded(ttl, max, ops, j - 1) then {ops[j - 1].key} else {}) == true
  {
    SeenStep(ttl, max, ops, j);
    assert Monotone(ops[..j - 1]);
    StoreStaysOrdered(ttl, max, ops[..j - 1]);
    KeptThroughOp(ttl, max, Seen(ttl, max, ops[..j - 1]), e, newer, ops[j - 1]);
    assert newer + {} == newer;
  }

  /** While its key is not forgotten, its time not up and fewer than `max` newer keys recorded, an
      entry is held. */
  lemma {:induction false} EntryIsKept(ttl: real, max: int, ops: seq<Op>, i: nat, j: nat)
    requires Monotone(ops) && i < j <= |ops| && Recorded(ttl, max, ops, i)
    requires forall m :: i < m < j ==> ops[m] != Forget(ops[i].key)
    requires forall m :: i < m < j && ops[m].Record? ==> ops[m].now < ops[i].later + ttl
    requires |NewerKeys(ttl, max, ops, i + 1, j)| < max || j == i + 1
    ensures Kept(Seen(ttl, max, ops[..j]), EntryOf(ttl, ops[i]), NewerKeys(ttl, max, ops, i + 1, j)) == true
    decreases j
  {
    if j == i + 1 {
      SeenStep(ttl, max, ops, j);
      JustKept(ttl, max, Seen(ttl, max, ops[..i]), ops[i]);
    } else {
      var newer := NewerKeys(ttl, max, ops, i + 1, j - 1);
      FewerKeys(newer, NewerKeys(ttl, max, ops, i + 1, j));
      EntryIsKept(ttl, max, ops, i, j - 1);
      KeptOneMore(ttl, max, ops, EntryOf(ttl, ops[i]), newer, j);
    }
  }

  lemma FewerKeys(some: set<Key>, all: set<Key>)
    requires some <= all
    ensures |some| <= |all|
  {
    assert all == some + (all - some);
  }

  lemma NextTimeNewMeansReleased(ttl: real, max: int, ops: seq<Op>, i: nat, j: nat)
    requires Monotone(ops) && i < j < |ops| && Recorded(ttl, max, ops, i) && Recorded(ttl, max, ops, j)
    requires ops[i].key == ops[j].key
    ensures || (exists m :: i < m < j && ops[m] == Forget(ops[i].key))
            || ops[j].now >= ops[i].later + ttl
            || |NewerKeys(ttl, max, ops, i + 1, j)| >= max
  {
    if (forall m :: i < m < j ==> ops[m] != Forget(ops[i].key)) && ops[j].now < ops[i].later + ttl
       && |NewerKeys(ttl, max, ops, i + 1, j)| < max {
      var newer := NewerKeys(ttl, max, ops, i + 1, j);
      forall m | i < m < j && ops[m].Record? ensures ops[m].now < ops[i].later + ttl {
        assert ops[m].later <= ops[j].now;
      }
      EntryIsKept(ttl, max, ops, i, j);
      assert Monotone(ops[..j]);
      StoreStaysOrdered(ttl, max, ops[..j]);
      KeptThroughPurge(Seen(ttl, max, ops[..j]), EntryOf(ttl, ops[i]), newer, ops[j].now, max);
      assert false;
    }
  }

  lemma {:induction false} NewerKeysMembers(ttl: real, max: int, ops: seq<Op>, i: nat, j: nat, key: Key)
    requires i <= j <= |ops|
    ensures key in NewerKeys(ttl, max, ops, i, j) <==>
              exists m :: i <= m < j && Recorded(ttl, max, ops, m) && ops[m].key == key
    decreases j
  {
    if i < j {
      NewerKeysMembers(ttl, max, ops, i, j - 1, key);
    }
  }

  lemma {:induction false} NewerKeysGrow(ttl: real, max: int, ops: seq<Op>, i: nat, m: nat, j: nat)
    requires i <= m <= j <= |ops|
    ensures NewerKeys(ttl, max, ops, i, m) <= NewerKeys(ttl, max, ops, i, j)
    decreases j
  {
    if m < j {
      NewerKeysGrow(ttl, max, ops, i, m, j - 1);
    }
  }

  /** Between two True answers for one key there was a `forget` of it, or its time to live ran out,
      or at least `max` different newer keys were recorded, not counting this one. */
  lemma {:induction false} TwiceNewMeansReleased(ttl: real, max: int, ops: seq<Op>, i: nat, j: nat)
    requires Monotone(ops) && i < j < |ops| && Recorded(ttl, max, ops, i) && Recorded(ttl, max, ops, j)
    requires ops[i].key == ops[j].key
    ensures || (exists m :: i < m < j && ops[m] == Forget(ops[i].key))
            || ops[j].now >= ops[i].later + ttl
            || |NewerKeys(ttl, max, ops, i + 1, j) - {ops[i].key}| >= max
    decreases j
  {
    var newer := NewerKeys(ttl, max, ops, i + 1, j);
    NewerKeysMembers(ttl, max, ops, i + 1, j, ops[i].key);
    if ops[i].key in newer {
      var m :| i < m < j && Recorded(ttl, max, ops, m) && ops[m].key == ops[i].key;
      TwiceNewMeansReleased(ttl, max, ops, i, m);
      assert ops[m].now <= ops[m].later <= ops[j].now;
      NewerKeysGrow(ttl, max, ops, i + 1, m, j);
      FewerKeys(NewerKeys(ttl, max, ops, i + 1, m) - {ops[i].key}, newer - {ops[i].key});
    } else {
      NextTimeNewMeansReleased(ttl, max, ops, i, j);
      assert newer - {ops[i].key} == newer;
    }
  }

  /** Operation `i` recorded entry `e`, and its key has not been forgotten by `j`. */
  ghost predicate Origin(ttl: real, max: int, ops: seq<Op>, i: nat, j: nat, e: Entry)
    requires j <= |ops|
  {
    && i < j && Recorded(ttl, max, ops, i) && e == EntryOf(ttl, ops[i])
    && forall m :: i < m < j ==> ops[m] != Forget(e.key)
  }

  lemma EntryIsOldOrNew(ttl: real, max: int, seen: seq<Entry>, op: Op, e: Entry)
    requires e in AfterOp(ttl, max, seen, op)
    ensures (e in seen && op != Forget(e.key)) || (op.Record? && IsNew(max, seen, op.key, op.now)
            && e == EntryOf(ttl, op))
  {
    match op
    case Record(_, now, _) => PurgedIsTail(seen, now, max);
    case Forget(key) => WithoutMembers(seen, key);
  }

  lemma {:induction false} EveryEntryHasAnOrigin(ttl: real, max: int, ops: seq<Op>, j: nat, e: Entry)
    requires j <= |ops| && e in Seen(ttl, max, ops[..j])
    ensures exists i :: Origin(ttl, max, ops, i, j, e)
    decreases j
  {
    var before := Seen(ttl, max, ops[..j - 1]);
    SeenStep(ttl, max, ops, j);
    EntryIsOldOrNew(ttl, max, before, ops[j - 1], e);
    if e in before && ops[j - 1] != Forget(e.key) {
      EveryEntryHasAnOrigin(ttl, max, ops, j - 1, e);
      var i :| Origin(ttl, max, ops, i, j - 1, e);
      assert Origin(ttl, max, ops, i, j, e);
    } else {
      assert Origin(ttl, max, ops, j - 1, j, e);
    }
  }

  /** A False answer is always right: the key was recorded before, has not been forgotten since and
      its time to live has not run out. */
  lemma DuplicateMeansLive(ttl: real, max: int, ops: seq<Op>, j: nat)
    requires Monotone(ops) && j < |ops| && ops[j].Record? && !Recorded(ttl, max, ops, j)
    ensures exists i: nat :: i < j && Recorded(ttl, max, ops, i)
              && Origin(ttl, max, ops, i, j, EntryOf(ttl, ops[i]))
              && ops[i].key == ops[j].key && ops[j].now < ops[i].later + ttl
  {
    var seen := Seen(ttl, max, ops[..j]);
    var rest := Purged(seen, ops[j].now, max);
    assert Monotone(ops[..j]);
    StoreStaysOrdered(ttl, max, ops[..j]);
    PurgedIsTail(seen, ops[j].now, max);
    var p :| 0 <= p < |rest| && rest[p].key == ops[j].key;
    assert rest[p] in seen;
    EveryEntryHasAnOrigin(ttl, max, ops, j, rest[p]);
    var i :| Origin(ttl, max, ops, i, j, rest[p]);
    assert rest[0].expiry <= rest[p].expiry;
  }
}
