/** TokenBucketLimiter: one bucket per key, in a dictionary that forgets the least recent key. */
module RateLimiter {
  import opened Logs
  import opened RateLimit

  /** One item of the `OrderedDict`, which is a sequence in insertion order. */
  datatype Entry = Entry(key: string, bucket: Bucket)

  function Find(entries: seq<Entry>, key: string): Option<Bucket> {
    if entries == [] then None
    else if entries[|entries| - 1].key == key then Some(entries[|entries| - 1].bucket)
    else Find(entries[..|entries| - 1], key)
  }

  function Without(entries: seq<Entry>, key: string): seq<Entry> {
    if entries == [] then []
    else
      var rest := Without(entries[..|entries| - 1], key);
      if entries[|entries| - 1].key == key then rest else rest + [entries[|entries| - 1]]
  }

  function Latest<T>(items: seq<T>, n: nat): seq<T> {
    if |items| <= n then items else items[|items| - n..]
  }

  /** The bucket a check starts from: the stored one, or a full one. */
  function BucketFor(cfg: Config, entries: seq<Entry>, key: string, now: real): Bucket {
    match Find(entries, key)
    case Some(b) => b
    case None => FreshBucket(cfg, now)
  }

  function AnswerTo(cfg: Config, entries: seq<Entry>, key: string, now: real): real
    requires cfg.rate > 0.0
  {
    CheckBucket(cfg, BucketFor(cfg, entries, key, now), now).1
  }

  function EntriesAfter(cfg: Config, entries: seq<Entry>, key: string, now: real): seq<Entry>
    requires cfg.rate > 0.0
  {
    Latest(Without(entries, key) + [Entry(key, CheckBucket(cfg, BucketFor(cfg, entries, key, now), now).0)],
        cfg.maxKeys)
  }

  class TokenBucketLimiter {
    const cfg: Config
    var buckets: seq<Entry>

    constructor (cfg: Config)
      ensures this.cfg == cfg && buckets == []
    {
      this.cfg := cfg;
      buckets := [];
    }

    /** `check`: take one token; 0 if allowed, else the seconds until one is available. */
    method Check(key: string, now: real) returns (wait: real)
      requires cfg.rate > 0.0
      modifies this
      ensures buckets == EntriesAfter(cfg, old(buckets), key, now)
      ensures wait == AnswerTo(cfg, old(buckets), key, now)
    {
      var found := Find(buckets, key);
      buckets := Without(buckets, key);
      var start := if found.Some? then found.value else FreshBucket(cfg, now);
      var tokens := Level(cfg, start, now);
      if tokens >= 1.0 {
        buckets := buckets + [Entry(key, Bucket(tokens - 1.0, now))];
        wait := 0.0;
      } else {
        buckets := buckets + [Entry(key, Bucket(tokens, now))];
        wait := (1.0 - tokens) / cfg.rate;
      }
      ghost var all := buckets;
      while |buckets| > cfg.maxKeys
        invariant |buckets| <= |all| && buckets == all[|all| - |buckets|..]
        invariant |buckets| >= cfg.maxKeys || buckets == all
      {
        buckets := buckets[1..];
      }
    }
  }

  // ---- a history of checks -------------------------------------------------

  datatype Call = Call(key: string, now: real)

  function Entries(cfg: Config, calls: seq<Call>): seq<Entry>
    requires cfg.rate > 0.0
  {
    if calls == [] then []
    else EntriesAfter(cfg, Entries(cfg, calls[..|calls| - 1]), calls[|calls| - 1].key, calls[|calls| - 1].now)
  }

  /** What the limiter answered to call `i`. */
  function Answer(cfg: Config, calls: seq<Call>, i: nat): real
    requires cfg.rate > 0.0 && i < |calls|
  {
    AnswerTo(cfg, Entries(cfg, calls[..i]), calls[i].key, calls[i].now)
  }

  // ---- which keys are stored -----------------------------------------------

  function Keys(entries: seq<Entry>): seq<string> {
    if entries == [] then [] else Keys(entries[..|entries| - 1]) + [entries[|entries| - 1].key]
  }

  function Remove(keys: seq<string>, key: string): seq<string> {
    if keys == [] then []
    else
      var rest := Remove(keys[..|keys| - 1], key);
      if keys[|keys| - 1] == key then rest else rest + [keys[|keys| - 1]]
  }

  /** The distinct keys checked so far, least recently checked first. */
  function Recency(calls: seq<Call>): seq<string> {
    if calls == [] then []
    else Remove(Recency(calls[..|calls| - 1]), calls[|calls| - 1].key) + [calls[|calls| - 1].key]
  }

  /** The other keys checked since `key` was last checked. */
  function Since(calls: seq<Call>, key: string): set<string> {
    if calls == [] || calls[|calls| - 1].key == key then {}
    else Since(calls[..|calls| - 1], key) + {calls[|calls| - 1].key}
  }

  predicate Checked(calls: seq<Call>, key: string) {
    exists i :: 0 <= i < |calls| && calls[i].key == key
  }

  ghost predicate Distinct(keys: seq<string>) {
    forall i, j :: 0 <= i < j < |keys| ==> keys[i] != keys[j]
  }

  lemma {:induction false} KeysLength(entries: seq<Entry>)
    ensures |Keys(entries)| == |entries|
    ensures forall i :: 0 <= i < |entries| ==> Keys(entries)[i] == entries[i].key
  {
    if entries != [] { KeysLength(entries[..|entries| - 1]); }
  }

  lemma {:induction false} KeysWithout(entries: seq<Entry>, key: string)
    ensures Keys(Without(entries, key)) == Remove(Keys(entries), key)
  {
    if entries != [] {
      var last := entries[|entries| - 1];
      KeysWithout(entries[..|entries| - 1], key);
      assert (Without(entries[..|entries| - 1], key) + [last])[..|Without(entries[..|entries| - 1], key)|]
          == Without(entries[..|entries| - 1], key);
      assert Keys(entries)[..|Keys(entries)| - 1] == Keys(entries[..|entries| - 1]);
    }
  }

  lemma KeysLatest(entries: seq<Entry>, n: nat)
    ensures Keys(Latest(entries, n)) == Latest(Keys(entries), n)
  {
    KeysLength(entries);
    KeysLength(Latest(entries, n));
    var tail := Latest(entries, n);
    var skipped := |entries| - |tail|;
    forall i | 0 <= i < |tail| ensures Keys(tail)[i] == Latest(Keys(entries), n)[i] {
      assert Keys(tail)[i] == tail[i].key == entries[i + skipped].key == Keys(entries)[i + skipped];
    }
  }

  lemma {:induction false} RemoveMembers(keys: seq<string>, key: string)
    ensures forall k :: k in Remove(keys, key) <==> k in keys && k != key
    ensures key !in keys ==> Remove(keys, key) == keys
  {
    if keys != [] {
      var front, last := keys[..|keys| - 1], keys[|keys| - 1];
      assert keys == front + [last];
      RemoveMembers(front, key);
    }
  }

  lemma {:induction false} RemoveDistinct(keys: seq<string>, key: string)
    requires Distinct(keys)
    ensures Distinct(Remove(keys, key))
    ensures key in keys ==> |Remove(keys, key)| == |keys| - 1
  {
    if keys != [] {
      var front, last := keys[..|keys| - 1], keys[|keys| - 1];
      assert keys == front + [last];
      RemoveDistinct(front, key);
      RemoveMembers(front, key);
      assert forall i :: 0 <= i < |front| ==> front[i] == keys[i] != last;
      var rest := Remove(front, key);
      forall i | 0 <= i < |rest| ensures rest[i] != last {
        assert rest[i] in rest;
      }
    }
  }

  lemma {:induction false} RemoveConcat(a: seq<string>, b: seq<string>, key: string)
    ensures Remove(a + b, key) == Remove(a, key) + Remove(b, key)
  {
    if b == [] {
      assert a + b == a;
    } else {
      RemoveConcat(a, b[..|b| - 1], key);
      assert (a + b)[..|a + b| - 1] == a + b[..|b| - 1];
    }
  }

  lemma RemoveLength(keys: seq<string>, key: string)
    requires Distinct(keys)
    ensures |Remove(keys, key)| + 1 >= |keys|
  {
    RemoveMembers(keys, key);
    RemoveDistinct(keys, key);
  }

  lemma TouchTail(early: seq<string>, late: seq<string>, key: string)
    requires Distinct(late)
    ensures Latest(Remove(early + late, key) + [key], |late|) == Latest(Remove(late, key) + [key], |late|)
  {
    var kept := Remove(late, key) + [key];
    RemoveConcat(early, late, key);
    RemoveLength(late, key);
    assert Remove(early + late, key) + [key] == Remove(early, key) + kept;
    LatestOfTail(Remove(early, key), kept, |late|);
  }

  /** Forgetting all but the latest `n` keys before a check or after it comes to the same. */
  lemma TouchLatest(keys: seq<string>, n: nat, key: string)
    requires Distinct(keys)
    ensures Latest(Remove(Latest(keys, n), key) + [key], n) == Latest(Remove(keys, key) + [key], n)
  {
    if |keys| > n {
      var cut := |keys| - n;
      assert keys == keys[..cut] + keys[cut..];
      TouchTail(keys[..cut], keys[cut..], key);
    }
  }

  lemma LatestOfTail<T>(front: seq<T>, tail: seq<T>, n: nat)
    requires |tail| >= n
    ensures Latest(front + tail, n) == Latest(tail, n)
  {}

  /** The stored keys after one check. */
  lemma KeysAfter(cfg: Config, entries: seq<Entry>, key: string, now: real)
    requires cfg.rate > 0.0
    ensures Keys(EntriesAfter(cfg, entries, key, now)) == Latest(Remove(Keys(entries), key) + [key], cfg.maxKeys)
  {
    var rest := Without(entries, key);
    var entry := Entry(key, CheckBucket(cfg, BucketFor(cfg, entries, key, now), now).0);
    KeysWithout(entries, key);
    assert (rest + [entry])[..|rest|] == rest;
    assert Keys(rest + [entry]) == Keys(rest) + [key];
    KeysLatest(rest + [entry], cfg.maxKeys);
  }

  lemma RecencyStep(calls: seq<Call>)
    requires calls != [] && Distinct(Recency(calls[..|calls| - 1]))
    ensures Recency(calls) == Remove(Recency(calls[..|calls| - 1]), calls[|calls| - 1].key) + [calls[|calls| - 1].key]
    ensures Distinct(Recency(calls))
  {
    var before, key := Recency(calls[..|calls| - 1]), calls[|calls| - 1].key;
    RemoveMembers(before, key);
    RemoveDistinct(before, key);
    DistinctAppend(Remove(before, key), key);
  }

  lemma DistinctAppend(keys: seq<string>, key: string)
    requires Distinct(keys) && key !in keys
    ensures Distinct(keys + [key])
  {
  }

  /** The stored keys are exactly the last `maxKeys` distinct keys checked, in recency order. */
  lemma {:induction false} StoredKeysAreMostRecent(cfg: Config, calls: seq<Call>)
    requires cfg.rate > 0.0
    ensures Keys(Entries(cfg, calls)) == Latest(Recency(calls), cfg.maxKeys)
    ensures Distinct(Recency(calls))
  {
    if calls != [] {
      var front, last := calls[..|calls| - 1], calls[|calls| - 1];
      StoredKeysAreMostRecent(cfg, front);
      RecencyStep(calls);
      KeysAfter(cfg, Entries(cfg, front), last.key, last.now);
      TouchLatest(Recency(front), cfg.maxKeys, last.key);
    }
  }

  /** The keys behind `key`. */
  function Following(keys: seq<string>, key: string): seq<string> {
    if keys == [] || keys[|keys| - 1] == key then []
    else Following(keys[..|keys| - 1], key) + [keys[|keys| - 1]]
  }

  lemma {:induction false} FollowingFacts(keys: seq<string>, key: string)
    requires Distinct(keys) && key in keys
    ensures |Following(keys, key)| < |keys| && keys[|keys| - 1 - |Following(keys, key)|] == key
    ensures Following(keys, key) == keys[|keys| - |Following(keys, key)|..]
  {
    if keys[|keys| - 1] != key {
      FollowingFacts(keys[..|keys| - 1], key);
    }
  }

  lemma {:induction false} FollowingRemove(keys: seq<string>, key: string, other: string)
    requires other != key
    ensures Following(Remove(keys, other), key) == Remove(Following(keys, key), other)
  {
    if keys != [] {
      var front, last := keys[..|keys| - 1], keys[|keys| - 1];
      FollowingRemove(front, key, other);
      if last != other {
        assert Remove(keys, other)[..|Remove(keys, other)| - 1] == Remove(front, other);
      }
      if last != key {
        assert Following(keys, key)[..|Following(keys, key)| - 1] == Following(front, key);
      }
    }
  }

  function Set(keys: seq<string>): set<string> {
    set k | k in keys
  }

  lemma {:induction false} DistinctSize(keys: seq<string>)
    requires Distinct(keys)
    ensures |Set(keys)| == |keys|
  {
    if keys != [] {
      var front, last := keys[..|keys| - 1], keys[|keys| - 1];
      DistinctSize(front);
      assert Set(keys) == Set(front) + {last};
    }
  }

  lemma CheckedStep(calls: seq<Call>, key: string)
    requires calls != []
    ensures Checked(calls, key) <==> Checked(calls[..|calls| - 1], key) || calls[|calls| - 1].key == key
  {
    var front := calls[..|calls| - 1];
    if Checked(front, key) {
      var i :| 0 <= i < |front| && front[i].key == key;
      assert calls[i].key == key;
    }
    if Checked(calls, key) && calls[|calls| - 1].key != key {
      var i :| 0 <= i < |calls| && calls[i].key == key;
      assert front[i].key == key;
    }
  }

  lemma {:induction false} RecencyDistinct(calls: seq<Call>)
    ensures Distinct(Recency(calls))
  {
    if calls != [] {
      var front, last := calls[..|calls| - 1], calls[|calls| - 1];
      RecencyDistinct(front);
      RemoveMembers(Recency(front), last.key);
      RemoveDistinct(Recency(front), last.key);
    }
  }

  lemma {:induction false} RecencyMembers(calls: seq<Call>, key: string)
    ensures key in Recency(calls) <==> Checked(calls, key)
  {
    if calls != [] {
      RecencyMembers(calls[..|calls| - 1], key);
      CheckedStep(calls, key);
      RemoveMembers(Recency(calls[..|calls| - 1]), calls[|calls| - 1].key);
    }
  }

  lemma {:induction false} SinceIsFollowing(calls: seq<Call>, key: string)
    requires Checked(calls, key)
    ensures Set(Following(Recency(calls), key)) == Since(calls, key)
  {
    var front, last := calls[..|calls| - 1], calls[|calls| - 1];
    var removed := Remove(Recency(front), last.key);
    assert (removed + [last.key])[..|removed|] == removed;
    if last.key != key {
      CheckedStep(calls, key);
      SinceIsFollowing(front, key);
      FollowingRemove(Recency(front), key, last.key);
      RemoveMembers(Following(Recency(front), key), last.key);
    }
  }

  /** A key is still stored exactly if it was checked and fewer than `maxKeys` other keys were
      checked since. */
  lemma StoredWhileRecent(cfg: Config, calls: seq<Call>, key: string)
    requires cfg.rate > 0.0
    ensures key in Keys(Entries(cfg, calls)) <==> Checked(calls, key) && |Since(calls, key)| < cfg.maxKeys
  {
    var keys := Recency(calls);
    StoredKeysAreMostRecent(cfg, calls);
    RecencyDistinct(calls);
    RecencyMembers(calls, key);
    if key in keys {
      SinceIsFollowing(calls, key);
      FollowingFacts(keys, key);
      DistinctSize(Following(keys, key));
      var at := |keys| - 1 - |Following(keys, key)|;
      if at >= |keys| - cfg.maxKeys {
        assert cfg.maxKeys < |keys| ==> Latest(keys, cfg.maxKeys)[at - (|keys| - cfg.maxKeys)] == key;
      }
    }
  }

  // ---- the same answers as without forgetting ------------------------------

  /** The bucket a limiter that never forgets holds for `key`. */
  function Unbounded(cfg: Config, calls: seq<Call>, key: string): Option<Bucket>
    requires cfg.rate > 0.0
    decreases |calls|, 0
  {
    if calls == [] then None
    else
      var front, last := calls[..|calls| - 1], calls[|calls| - 1];
      if last.key == key then Some(CheckBucket(cfg, UnboundedFor(cfg, front, key, last.now), last.now).0)
      else Unbounded(cfg, front, key)
  }

  function UnboundedFor(cfg: Config, calls: seq<Call>, key: string, now: real): Bucket
    requires cfg.rate > 0.0
    decreases |calls|, 1
  {
    match Unbounded(cfg, calls, key)
    case Some(b) => b
    case None => FreshBucket(cfg, now)
  }

  /** Every re-check of `key` came before `maxKeys` other keys had been checked in between. */
  ghost predicate InTime(cfg: Config, calls: seq<Call>, key: string) {
    forall i :: 0 <= i < |calls| && calls[i].key == key && Checked(calls[..i], key) ==>
      |Since(calls[..i], key)| < cfg.maxKeys
  }

  lemma {:induction false} FindKey(entries: seq<Entry>, key: string)
    ensures Find(entries, key).Some? <==> key in Keys(entries)
  {
    if entries != [] { FindKey(entries[..|entries| - 1], key); }
  }

  lemma {:induction false} FindWithout(entries: seq<Entry>, key: string, other: string)
    ensures key != other ==> Find(Without(entries, other), key) == Find(entries, key)
  {
    if entries != [] {
      var rest := Without(entries[..|entries| - 1], other);
      FindWithout(entries[..|entries| - 1], key, other);
      assert (rest + [entries[|entries| - 1]])[..|rest|] == rest;
    }
  }

  lemma {:induction false} FindLatest(entries: seq<Entry>, n: nat, key: string)
    ensures Find(Latest(entries, n), key) == Find(entries, key) || Find(Latest(entries, n), key) == None
  {
    if |entries| > n {
      if n > 0 {
        FindLatest(entries[..|entries| - 1], n - 1, key);
        var tail := Latest(entries, n);
        assert tail[..|tail| - 1] == Latest(entries[..|entries| - 1], n - 1);
      }
    }
  }

  lemma FindAfter(cfg: Config, entries: seq<Entry>, key: string, other: string, now: real)
    requires cfg.rate > 0.0
    ensures var found := Find(EntriesAfter(cfg, entries, other, now), key);
      found == None ||
      found == if key == other then Some(CheckBucket(cfg, BucketFor(cfg, entries, key, now), now).0)
               else Find(entries, key)
  {
    var entry := Entry(other, CheckBucket(cfg, BucketFor(cfg, entries, other, now), now).0);
    var rest := Without(entries, other);
    assert (rest + [entry])[..|rest|] == rest;
    FindWithout(entries, key, other);
    FindLatest(rest + [entry], cfg.maxKeys, key);
  }

  lemma UnboundedKey(cfg: Config, calls: seq<Call>, key: string)
    requires cfg.rate > 0.0
    ensures Unbounded(cfg, calls, key).Some? <==> Checked(calls, key)
  {
    if calls != [] { UnboundedKey(cfg, calls[..|calls| - 1], key); }
  }

  /** A key that is re-checked in time gets, at every call, the bucket and so the answer that a
      limiter which never forgets would give it; whatever is stored for it is that bucket. */
  lemma {:induction false} SameAsUnbounded(cfg: Config, calls: seq<Call>, key: string)
    requires cfg.rate > 0.0 && InTime(cfg, calls, key)
    ensures Find(Entries(cfg, calls), key).Some? ==> Find(Entries(cfg, calls), key) == Unbounded(cfg, calls, key)
    ensures forall i :: 0 <= i < |calls| && calls[i].key == key ==>
              Answer(cfg, calls, i)
              == CheckBucket(cfg, UnboundedFor(cfg, calls[..i], key, calls[i].now), calls[i].now).1
  {
    if calls != [] {
      var front, last := calls[..|calls| - 1], calls[|calls| - 1];
      assert forall i :: 0 <= i < |front| ==> front[..i] == calls[..i] && front[i] == calls[i];
      SameAsUnbounded(cfg, front, key);
      FindAfter(cfg, Entries(cfg, front), key, last.key, last.now);
      if last.key == key {
        assert calls[..|calls| - 1] == front;
        SameBucket(cfg, front, key, last.now);
      }
      forall i | 0 <= i < |calls| && calls[i].key == key
        ensures Answer(cfg, calls, i)
             == CheckBucket(cfg, UnboundedFor(cfg, calls[..i], key, calls[i].now), calls[i].now).1
      {
        if i < |front| { assert Answer(cfg, front, i) == Answer(cfg, calls, i); }
      }
    }
  }

  lemma SameBucket(cfg: Config, front: seq<Call>, key: string, now: real)
    requires cfg.rate > 0.0
    requires Checked(front, key) ==> |Since(front, key)| < cfg.maxKeys
    requires Find(Entries(cfg, front), key).Some? ==> Find(Entries(cfg, front), key) == Unbounded(cfg, front, key)
    ensures BucketFor(cfg, Entries(cfg, front), key, now) == UnboundedFor(cfg, front, key, now)
  {
    StoredWhileRecent(cfg, front, key);
    FindKey(Entries(cfg, front), key);
    UnboundedKey(cfg, front, key);
  }

  // ---- the rate bound of the limiter ----------------------------------------

  ghost predicate Monotone(calls: seq<Call>) {
    forall i, j :: 0 <= i < j < |calls| ==> calls[i].now <= calls[j].now
  }

  /** How many of the calls from `start` on were for `key` and allowed. */
  function AllowedSince(cfg: Config, calls: seq<Call>, key: string, start: nat): nat
    requires cfg.rate > 0.0 && start <= |calls|
  {
    if |calls| == start then 0
    else
      AllowedSince(cfg, calls[..|calls| - 1], key, start)
      + if calls[|calls| - 1].key == key && Answer(cfg, calls, |calls| - 1) == 0.0 then 1 else 0
  }

  lemma {:induction false} UnboundedInv(cfg: Config, calls: seq<Call>, key: string)
    requires cfg.rate > 0.0 && Monotone(calls)
    ensures Unbounded(cfg, calls, key).Some? ==>
              var b := Unbounded(cfg, calls, key).value; BucketInv(cfg, b) && b.last <= calls[|calls| - 1].now
  {
    if calls != [] {
      var front, last := calls[..|calls| - 1], calls[|calls| - 1];
      UnboundedInv(cfg, front, key);
      if last.key == key {
        CheckKeepsBucket(cfg, UnboundedFor(cfg, front, key, last.now), last.now);
      }
    }
  }

  /** In any window of the history, a key that is re-checked in time is allowed at most
      burst + rate * length times. */
  lemma RateBoundForKey(cfg: Config, calls: seq<Call>, key: string, start: nat, from: real, until: real)
    requires cfg.rate > 0.0 && cfg.burst >= 0 && Monotone(calls) && InTime(cfg, calls, key)
    requires start <= |calls| && from <= until
    requires start > 0 ==> calls[start - 1].now <= from
    requires forall i :: start <= i < |calls| ==> from <= calls[i].now <= until
    ensures AllowedSince(cfg, calls, key, start) as real <= cfg.burst as real + Inflow(cfg, from, until)
  {
    Accounting(cfg, calls, key, start, from, until);
  }

  lemma {:induction false} Accounting(cfg: Config, calls: seq<Call>, key: string, start: nat, from: real, until: real)
    requires cfg.rate > 0.0 && cfg.burst >= 0 && Monotone(calls) && InTime(cfg, calls, key)
    requires start <= |calls| && from <= until
    requires start > 0 ==> calls[start - 1].now <= from
    requires forall i :: start <= i < |calls| ==> from <= calls[i].now <= until
    ensures 0.0 <= Level(cfg, UnboundedFor(cfg, calls, key, until), until)
    ensures AllowedSince(cfg, calls, key, start) as real + Level(cfg, UnboundedFor(cfg, calls, key, until), until)
              <= cfg.burst as real + Inflow(cfg, from, until)
  {
    InflowGrows(cfg, from, from, until);
    UnboundedInv(cfg, calls, key);
    LevelIsCapped(cfg, UnboundedFor(cfg, calls, key, until), until);
    if |calls| > start {
      var front, last := calls[..|calls| - 1], calls[|calls| - 1];
      InTimeFront(cfg, calls, key);
      if last.key == key {
        Accounting(cfg, front, key, start, from, last.now);
        SameAsUnbounded(cfg, calls, key);
        UnboundedInv(cfg, front, key);
        OneCheck(cfg, UnboundedFor(cfg, front, key, last.now), last.now, until);
        CheckKeepsBucket(cfg, UnboundedFor(cfg, front, key, last.now), last.now);
        InflowAdds(cfg, from, last.now, until);
      } else {
        Accounting(cfg, front, key, start, from, until);
      }
    }
  }

  lemma InTimeFront(cfg: Config, calls: seq<Call>, key: string)
    requires InTime(cfg, calls, key) && calls != []
    ensures InTime(cfg, calls[..|calls| - 1], key)
  {
    var front := calls[..|calls| - 1];
    assert forall i :: 0 <= i < |front| ==> front[..i] == calls[..i] && front[i] == calls[i];
  }

  // ---- the retry hint of the limiter ----------------------------------------

  /** Call `i` was for `key` and denied, and so was every call for it before call `j`. */
  ghost predicate DeniedSince(cfg: Config, calls: seq<Call>, key: string, i: nat, j: nat)
    requires cfg.rate > 0.0 && i < j <= |calls|
  {
    calls[i].key == key && forall m :: i <= m < j && calls[m].key == key ==> Answer(cfg, calls, m) != 0.0
  }

  /** The bucket a denied call found. */
  lemma DeniedCall(cfg: Config, calls: seq<Call>, key: string, m: nat)
    requires cfg.rate > 0.0 && Monotone(calls) && InTime(cfg, calls, key) && m < |calls| && calls[m].key == key
    ensures var before := UnboundedFor(cfg, calls[..m], key, calls[m].now);
      && BucketInv(cfg, before) && before.last <= calls[m].now
      && Answer(cfg, calls, m) == CheckBucket(cfg, before, calls[m].now).1
      && (Answer(cfg, calls, m) == 0.0 <==> Allows(cfg, before, calls[m].now))
  {
    assert Monotone(calls[..m]);
    UnboundedInv(cfg, calls[..m], key);
    SameAsUnbounded(cfg, calls, key);
    CheckKeepsBucket(cfg, UnboundedFor(cfg, calls[..m], key, calls[m].now), calls[m].now);
  }

  /** The denied checks of the key since call `i` all came before its wait was over, and its bucket is what
      they left. */
  ghost predicate BucketSince(cfg: Config, calls: seq<Call>, key: string, i: nat, m: nat, times: seq<real>)
    requires cfg.rate > 0.0 && i < m <= |calls|
  {
    var t, before := calls[i].now, UnboundedFor(cfg, calls[..i], key, calls[i].now);
    && BeforeWaitEnds(cfg, before, t, times, calls[m - 1].now)
    && Unbounded(cfg, calls[..m], key) == Some(AfterChecks(cfg, CheckBucket(cfg, before, t).0, times))
  }

  lemma UnboundedStep(cfg: Config, calls: seq<Call>, key: string, m: nat)
    requires cfg.rate > 0.0 && 0 < m <= |calls|
    ensures Unbounded(cfg, calls[..m], key)
         == if calls[m - 1].key == key
            then Some(CheckBucket(cfg, UnboundedFor(cfg, calls[..m - 1], key, calls[m - 1].now), calls[m - 1].now).0)
            else Unbounded(cfg, calls[..m - 1], key)
  {
    assert calls[..m][..m - 1] == calls[..m - 1];
  }

  lemma OneMoreCheck(cfg: Config, calls: seq<Call>, key: string, i: nat, m: nat, times: seq<real>)
    returns (more: seq<real>)
    requires cfg.rate > 0.0 && cfg.burst >= 1 && Monotone(calls) && InTime(cfg, calls, key)
    requires i + 1 < m <= |calls| && DeniedSince(cfg, calls, key, i, m) && BucketSince(cfg, calls, key, i, m - 1, times)
    ensures BucketSince(cfg, calls, key, i, m, more)
  {
    more := times;
    UnboundedStep(cfg, calls, key, m);
    assert calls[m - 2].now <= calls[m - 1].now;
    if calls[m - 1].key == key {
      DeniedCall(cfg, calls, key, i);
      DeniedCall(cfg, calls, key, m - 1);
      OneMoreDenied(cfg, UnboundedFor(cfg, calls[..i], key, calls[i].now), calls[i].now, times, calls[m - 1].now);
      more := times + [calls[m - 1].now];
    }
  }

  lemma {:induction false} ChecksSince(cfg: Config, calls: seq<Call>, key: string, i: nat, m: nat)
    returns (times: seq<real>)
    requires cfg.rate > 0.0 && cfg.burst >= 1 && Monotone(calls) && InTime(cfg, calls, key)
    requires i < m <= |calls| && DeniedSince(cfg, calls, key, i, m)
    ensures BucketSince(cfg, calls, key, i, m, times)
    decreases m
  {
    if m == i + 1 {
      UnboundedStep(cfg, calls, key, m);
      times := [];
    } else {
      times := ChecksSince(cfg, calls, key, i, m - 1);
      times := OneMoreCheck(cfg, calls, key, i, m, times);
    }
  }

  /** In any history, a denied call for a key that is re-checked in time told exactly how long to wait: as
      long as no call for the key has been allowed since, the next is allowed if and only if that time is
      over, however many were denied in between. */
  lemma RetryHintForKey(cfg: Config, calls: seq<Call>, key: string, i: nat, j: nat)
    requires cfg.rate > 0.0 && cfg.burst >= 1 && Monotone(calls) && InTime(cfg, calls, key)
    requires i < j < |calls| && calls[j].key == key && DeniedSince(cfg, calls, key, i, j)
    ensures Answer(cfg, calls, j) == 0.0 <==> calls[j].now >= calls[i].now + Answer(cfg, calls, i)
  {
    var times := ChecksSince(cfg, calls, key, i, j);
    DeniedCall(cfg, calls, key, i);
    DeniedCall(cfg, calls, key, j);
    RetryHintIsExact(cfg, UnboundedFor(cfg, calls[..i], key, calls[i].now), calls[i].now, times, calls[j].now);
  }

  // ---- a key the limiter does not know ----------------------------------------

  /** The first check of a key that is new, or has been evicted, is allowed. */
  lemma NewKeyIsAllowed(cfg: Config, calls: seq<Call>, key: string, i: nat)
    requires cfg.rate > 0.0 && cfg.burst >= 1 && i < |calls| && calls[i].key == key
    requires !Checked(calls[..i], key) || |Since(calls[..i], key)| >= cfg.maxKeys
    ensures Answer(cfg, calls, i) == 0.0
  {
    StoredWhileRecent(cfg, calls[..i], key);
    FindKey(Entries(cfg, calls[..i]), key);
    FullAtFirst(cfg, calls[i].now, calls[i].now);
  }

  /** A bucket filled just now holds the whole burst. */
  lemma FullAtFirst(cfg: Config, now: real, later: real)
    requires cfg.rate > 0.0 && cfg.burst >= 0 && now == later
    ensures Level(cfg, FreshBucket(cfg, now), later) == cfg.burst as real
  {
  }

  /** How many of the calls were for `key`. */
  function CallsFor(calls: seq<Call>, key: string): nat {
    if calls == [] then 0
    else CallsFor(calls[..|calls| - 1], key) + if calls[|calls| - 1].key == key then 1 else 0
  }

  ghost predicate AllAt(calls: seq<Call>, key: string, now: real) {
    forall i :: 0 <= i < |calls| && calls[i].key == key ==> calls[i].now == now
  }

  function Least(a: nat, b: nat): nat {
    if a <= b then a else b
  }

  lemma TakeOne(cfg: Config, held: int, now: real)
    requires cfg.rate > 0.0 && 0 <= held <= cfg.burst
    ensures CheckBucket(cfg, Bucket(held as real, now), now).0
         == Bucket((if held >= 1 then held - 1 else 0) as real, now)
  {
    assert Level(cfg, Bucket(held as real, now), now) == held as real;
    assert held >= 1 ==> (held as real) - 1.0 == (held - 1) as real;
  }

  /** What `n` checks at one instant leave of a new key's bucket. */
  lemma {:induction false} FirstChecks(cfg: Config, calls: seq<Call>, key: string, now: real)
    requires cfg.rate > 0.0 && cfg.burst >= 0 && AllAt(calls, key, now)
    ensures Unbounded(cfg, calls, key)
         == if CallsFor(calls, key) == 0 then None
            else Some(Bucket((cfg.burst - Least(CallsFor(calls, key), cfg.burst)) as real, now))
  {
    if calls != [] {
      var front := calls[..|calls| - 1];
      assert AllAt(front, key, now);
      FirstChecks(cfg, front, key, now);
      if calls[|calls| - 1].key == key {
        TakeOne(cfg, cfg.burst - Least(CallsFor(front, key), cfg.burst), now);
      }
    }
  }

  /** Of the checks of a new key at one instant, the first `burst` are answered 0 and no other, whatever other
      keys are checked in between; so exactly min(n, burst) of n are. */
  lemma BurstOfNewKey(cfg: Config, calls: seq<Call>, key: string, now: real)
    requires cfg.rate > 0.0 && cfg.burst >= 0 && InTime(cfg, calls, key) && AllAt(calls, key, now)
    ensures forall i :: 0 <= i < |calls| && calls[i].key == key ==>
              (Answer(cfg, calls, i) == 0.0 <==> CallsFor(calls[..i], key) < cfg.burst)
    ensures AllowedSince(cfg, calls, key, 0) == Least(CallsFor(calls, key), cfg.burst)
  {
    forall i | 0 <= i < |calls| && calls[i].key == key
      ensures Answer(cfg, calls, i) == 0.0 <==> CallsFor(calls[..i], key) < cfg.burst
    {
      OneOfBurst(cfg, calls, key, now, i);
    }
    CountBurst(cfg, calls, key, now);
  }

  lemma OneOfBurst(cfg: Config, calls: seq<Call>, key: string, now: real, i: nat)
    requires cfg.rate > 0.0 && cfg.burst >= 0 && InTime(cfg, calls, key) && AllAt(calls, key, now)
    requires i < |calls| && calls[i].key == key
    ensures Answer(cfg, calls, i) == 0.0 <==> CallsFor(calls[..i], key) < cfg.burst
  {
    var before := UnboundedFor(cfg, calls[..i], key, now);
    assert AllAt(calls[..i], key, now);
    FirstChecks(cfg, calls[..i], key, now);
    SameAsUnbounded(cfg, calls, key);
    FullAtFirst(cfg, now, now);
    assert Level(cfg, before, now) == (cfg.burst - Least(CallsFor(calls[..i], key), cfg.burst)) as real;
    CheckKeepsBucket(cfg, before, now);
  }

  lemma {:induction false} CountBurst(cfg: Config, calls: seq<Call>, key: string, now: real)
    requires cfg.rate > 0.0 && cfg.burst >= 0 && InTime(cfg, calls, key) && AllAt(calls, key, now)
    ensures AllowedSince(cfg, calls, key, 0) == Least(CallsFor(calls, key), cfg.burst)
  {
    if calls != [] {
      var front := calls[..|calls| - 1];
      InTimeFront(cfg, calls, key);
      assert AllAt(front, key, now);
      CountBurst(cfg, front, key, now);
      if calls[|calls| - 1].key == key {
        OneOfBurst(cfg, calls, key, now, |calls| - 1);
      }
    }
  }
}
