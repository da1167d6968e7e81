/** The in-memory TTL + LRU cache (app/utils/cache.py).

    `Cache` is the abstract value of a `TTLCache` object; every method is proved to perform the
    corresponding transition on it, and the retention theorem is proved over arbitrary timed runs of
    those transitions. Times are seconds on one clock, as `time.time()` returns them. */
module Cache {
  import opened Outcomes

  datatype Entry<V> = Entry(value: V, expiresAt: real, accessCount: nat, lastAccessed: real, accessSeq: nat)

  datatype Cache<V> = Cache(
    entries: map<Name, Entry<V>>, maxSize: nat, defaultTtl: int,
    seqNo: nat, hits: nat, misses: nat, evictions: nat)

  // ------------------------------------------------------------------ transitions

  predicate Expired<V>(e: Entry<V>, now: real) { e.expiresAt < now }

  predicate Live<V>(c: Cache<V>, key: Name, now: real) {
    key in c.entries && !Expired(c.entries[key], now)
  }

  function Lookup<V>(c: Cache<V>, key: Name, now: real): Option<V> {
    if Live(c, key, now) then Some(c.entries[key].value) else None
  }

  function AfterGet<V>(c: Cache<V>, key: Name, now: real): Cache<V> {
    if key !in c.entries then c.(misses := c.misses + 1)
    else if Expired(c.entries[key], now) then
      c.(entries := c.entries - {key}, misses := c.misses + 1, evictions := c.evictions + 1)
    else
      var e := c.entries[key];
      var used := e.(accessCount := e.accessCount + 1, lastAccessed := now, accessSeq := c.seqNo + 1);
      c.(entries := c.entries[key := used],
         seqNo := c.seqNo + 1, hits := c.hits + 1)
  }

  function Unexpired<V>(m: map<Name, Entry<V>>, now: real): map<Name, Entry<V>> {
    map k | k in m && !Expired(m[k], now) :: m[k]
  }

  function AfterEvictExpired<V>(c: Cache<V>, now: real): Cache<V> {
    var alive := Unexpired(c.entries, now);
    assert alive.Keys <= c.entries.Keys;
    c.(entries := alive, evictions := c.evictions + |c.entries.Keys - alive.Keys|)
  }

  ghost predicate IsOldest<V>(m: map<Name, Entry<V>>, k: Name) {
    k in m && forall j :: j in m ==> m[k].accessSeq <= m[j].accessSeq
  }

  // What `_evict_lru` does to a full cache: the expired entries go and, if none was expired, the least
  // recently used entry goes instead.
  ghost predicate EvictsLru<V>(c: Cache<V>, now: real, c': Cache<V>) {
    var swept := AfterEvictExpired(c, now);
    if |swept.entries| < c.maxSize then c' == swept
    else exists k :: IsOldest(swept.entries, k)
                     && c' == swept.(entries := swept.entries - {k}, evictions := swept.evictions + 1)
  }

  function Stored<V>(c: Cache<V>, key: Name, value: V, now: real, ttl: Option<int>): Cache<V> {
    var lifetime := if ttl.Some? then ttl.value else c.defaultTtl;
    c.(entries := c.entries[key := Entry(value, now + lifetime as real, 1, now, c.seqNo + 1)], seqNo := c.seqNo + 1)
  }

  ghost predicate AfterSet<V(!new)>(c: Cache<V>, key: Name, value: V, now: real, ttl: Option<int>, c': Cache<V>) {
    if |c.entries| >= c.maxSize && key !in c.entries then
      exists room :: EvictsLru(c, now, room) && c' == Stored(room, key, value, now, ttl)
    else
      c' == Stored(c, key, value, now, ttl)
  }

  /** What every operation keeps: the size bound, and access sequence numbers that are distinct and never
      ahead of the counter. */
  ghost predicate Sound<V>(c: Cache<V>) {
    && c.maxSize >= 1
    && |c.entries| <= c.maxSize
    && (forall k :: k in c.entries ==> c.entries[k].accessSeq <= c.seqNo)
    && (forall j, k :: j in c.entries && k in c.entries && j != k ==> c.entries[j].accessSeq != c.entries[k].accessSeq)
  }

  // ------------------------------------------------------------------ timed runs

  datatype Op<V> =
    | Get(key: Name)
    | Set(key: Name, value: V, ttl: Option<int>)
    | EvictExpired
    | Delete(key: Name)
    | Clear

  datatype Event<V> = Event(op: Op<V>, now: real)

  ghost predicate Step<V(!new)>(c: Cache<V>, ev: Event<V>, c': Cache<V>) {
    match ev.op
    case Get(k) => c' == AfterGet(c, k, ev.now)
    case Set(k, v, ttl) => AfterSet(c, k, v, ev.now, ttl, c')
    case EvictExpired => c' == AfterEvictExpired(c, ev.now)
    case Delete(k) => c' == c.(entries := c.entries - {k})
    case Clear => c' == c.(entries := map[], seqNo := 0, hits := 0, misses := 0, evictions := 0)
  }

  ghost predicate StepAt<V(!new)>(states: seq<Cache<V>>, events: seq<Event<V>>, i: nat)
    requires i < |events| && |states| == |events| + 1
  {
    Step(states[i], events[i], states[i + 1])
  }

  // states[i] is the cache before events[i]; the clock never goes back.
  ghost predicate IsRun<V(!new)>(states: seq<Cache<V>>, events: seq<Event<V>>) {
    && |states| == |events| + 1
    && (forall i :: 0 <= i < |events| ==> StepAt(states, events, i))
    && (forall i, j :: 0 <= i <= j < |events| ==> events[i].now <= events[j].now)
  }

  // The key an event refreshes: the one it stores, or the one it finds alive.
  ghost predicate Touches<V>(c: Cache<V>, ev: Event<V>, key: Name) {
    match ev.op
    case Get(k) => k == key && Live(c, k, ev.now)
    case Set(k, _, _) => k == key
    case _ => false
  }

  ghost function TouchedKeys<V>(c: Cache<V>, ev: Event<V>): (r: set<Name>)
    ensures forall k :: k in r <==> Touches(c, ev, k)
  {
    match ev.op
    case Get(k) => if Live(c, k, ev.now) then {k} else {}
    case Set(k, _, _) => {k}
    case _ => {}
  }

  // The distinct keys refreshed by events from..to.
  ghost function TouchedBetween<V>(states: seq<Cache<V>>, events: seq<Event<V>>, from: nat, upto: nat): set<Name>
    requires from <= upto <= |events| <= |states|
    decreases upto
  {
    if from == upto then {}
    else TouchedBetween(states, events, from, upto - 1) + TouchedKeys(states[upto - 1], events[upto - 1])
  }

  // ------------------------------------------------------------------ the invariant

  lemma SubmapSmaller<V>(small: map<Name, V>, large: map<Name, V>)
    requires small.Keys <= large.Keys
    ensures |small| <= |large|
    ensures small.Keys < large.Keys ==> |small| < |large|
  {
    assert large.Keys == small.Keys + (large.Keys - small.Keys);
    assert |large.Keys| == |small.Keys| + |large.Keys - small.Keys|;
  }

  lemma SweepKeepsSound<V>(c: Cache<V>, now: real)
    requires Sound(c)
    ensures Sound(AfterEvictExpired(c, now))
  {
    SubmapSmaller(Unexpired(c.entries, now), c.entries);
  }

  lemma EvictionMakesRoom<V>(c: Cache<V>, now: real, c': Cache<V>)
    requires Sound(c) && EvictsLru(c, now, c')
    ensures Sound(c') && |c'.entries| < c.maxSize
    ensures c'.maxSize == c.maxSize && c'.defaultTtl == c.defaultTtl && c'.seqNo == c.seqNo
    ensures forall k :: k in c'.entries ==> k in c.entries && c'.entries[k] == c.entries[k]
  {
    var swept := AfterEvictExpired(c, now);
    SweepKeepsSound(c, now);
    if |swept.entries| >= c.maxSize {
      var k :| IsOldest(swept.entries, k)
               && c' == swept.(entries := swept.entries - {k}, evictions := swept.evictions + 1);
      SubmapSmaller(c'.entries, swept.entries);
    }
  }

  lemma StoredIsSound<V>(c: Cache<V>, key: Name, value: V, now: real, ttl: Option<int>)
    requires Sound(c) && (|c.entries| < c.maxSize || key in c.entries)
    ensures Sound(Stored(c, key, value, now, ttl))
  {
    assert Stored(c, key, value, now, ttl).entries.Keys == c.entries.Keys + {key};
  }

  lemma GetKeepsSound<V>(c: Cache<V>, key: Name, now: real)
    requires Sound(c)
    ensures Sound(AfterGet(c, key, now))
  {
    var c' := AfterGet(c, key, now);
    if Live(c, key, now) {
      assert c'.entries.Keys == c.entries.Keys;
    } else {
      SubmapSmaller(c'.entries, c.entries);
    }
  }

  lemma SetKeepsSound<V(!new)>(c: Cache<V>, key: Name, value: V, now: real, ttl: Option<int>, c': Cache<V>)
    requires Sound(c) && AfterSet(c, key, value, now, ttl, c')
    ensures Sound(c') && c'.maxSize == c.maxSize && c'.defaultTtl == c.defaultTtl
  {
    if |c.entries| >= c.maxSize && key !in c.entries {
      var room :| EvictsLru(c, now, room) && c' == Stored(room, key, value, now, ttl);
      EvictionMakesRoom(c, now, room);
      StoredIsSound(room, key, value, now, ttl);
    } else {
      StoredIsSound(c, key, value, now, ttl);
    }
  }

  lemma DeleteKeepsSound<V>(c: Cache<V>, key: Name)
    requires Sound(c)
    ensures Sound(c.(entries := c.entries - {key}))
  {
    SubmapSmaller(c.entries - {key}, c.entries);
  }

  /** Size bound, distinct access numbers and capacity survive every operation. */
  lemma StepKeepsSound<V(!new)>(c: Cache<V>, ev: Event<V>, c': Cache<V>)
    requires Sound(c) && Step(c, ev, c')
    ensures Sound(c') && c'.maxSize == c.maxSize && c'.defaultTtl == c.defaultTtl
  {
    match ev.op
    case Get(k) => GetKeepsSound(c, k, ev.now);
    case Set(k, v, ttl) => SetKeepsSound(c, k, v, ev.now, ttl, c');
    case EvictExpired => SweepKeepsSound(c, ev.now);
    case Delete(k) => DeleteKeepsSound(c, k);
    case Clear =>
  }

  lemma {:induction false} RunKeepsSound<V(!new)>(states: seq<Cache<V>>, events: seq<Event<V>>, n: nat)
    requires IsRun(states, events) && Sound(states[0]) && n < |states|
    ensures Sound(states[n]) && states[n].maxSize == states[0].maxSize && states[n].defaultTtl == states[0].defaultTtl
  {
    if n > 0 {
      RunKeepsSound(states, events, n - 1);
      assert StepAt(states, events, n - 1);
      StepKeepsSound(states[n - 1], events[n - 1], states[n]);
    }
  }

  // ------------------------------------------------------------------ retention

  // `key` is stored with this value and expiry, and everything used more recently than access number
  // `since` is either `key` itself or in `others`.
  ghost predicate Holds<V>(c: Cache<V>, key: Name, value: V, expiry: real, since: nat, others: set<Name>) {
    && key in c.entries
    && c.entries[key].value == value && c.entries[key].expiresAt == expiry
    && since <= c.entries[key].accessSeq
    && since <= c.seqNo
    && forall k :: k in c.entries && k != key && since < c.entries[k].accessSeq ==> k in others
  }

  // An event that could end the guarantee by other means than eviction.
  predicate Disturbs<V>(ev: Event<V>, key: Name) {
    match ev.op
    case Set(k, _, _) => k == key
    case Delete(k) => k == key
    case Clear => true
    case _ => false
  }

  lemma CrowdedOut(keys: set<Name>, key: Name, others: set<Name>, newcomer: Name)
    requires key in keys && keys - {key} <= others
    requires newcomer in others && newcomer !in keys
    ensures |keys| <= |others|
  {
    assert keys - {key} <= others - {newcomer};
    SubsetSmaller(keys - {key}, others - {newcomer});
  }

  lemma OldestIsOutlived<V>(m: map<Name, Entry<V>>, key: Name, since: nat, others: set<Name>)
    requires IsOldest(m, key) && since <= m[key].accessSeq
    requires forall j, k :: j in m && k in m && j != k ==> m[j].accessSeq != m[k].accessSeq
    requires forall k :: k in m && k != key && since < m[k].accessSeq ==> k in others
    ensures m.Keys - {key} <= others
  {
    forall k | k in m && k != key
      ensures k in others
    {
      assert m[key].accessSeq <= m[k].accessSeq;
    }
  }

  // An eviction that makes room for `newcomer` cannot pick `key` while fewer than `maxSize` other keys
  // have been used since.
  lemma EvictionSpares<V>(c: Cache<V>, now: real, c': Cache<V>, key: Name, since: nat, others: set<Name>,
                          newcomer: Name)
    requires Sound(c) && EvictsLru(c, now, c')
    requires Live(c, key, now) && since <= c.entries[key].accessSeq
    requires forall k :: k in c.entries && k != key && since < c.entries[k].accessSeq ==> k in others
    requires newcomer in others && newcomer !in c.entries && |others| < c.maxSize
    ensures key in c'.entries
  {
    var swept := AfterEvictExpired(c, now);
    SweepKeepsSound(c, now);
    if |swept.entries| >= c.maxSize {
      var k :| IsOldest(swept.entries, k)
               && c' == swept.(entries := swept.entries - {k}, evictions := swept.evictions + 1);
      if k == key {
        OldestIsOutlived(swept.entries, key, since, others);
        CrowdedOut(swept.entries.Keys, key, others, newcomer);
      }
    }
  }

  lemma StepRetains<V(!new)>(c: Cache<V>, ev: Event<V>, c': Cache<V>, key: Name, value: V, expiry: real,
                             since: nat, others: set<Name>, more: set<Name>)
    requires Sound(c) && Step(c, ev, c') && !Disturbs(ev, key)
    requires Holds(c, key, value, expiry, since, others) && ev.now <= expiry
    requires others <= more && TouchedKeys(c, ev) - {key} <= more && |more| < c.maxSize
    ensures Holds(c', key, value, expiry, since, more)
  {
    match ev.op
    case Get(k) => GetRetains(c, ev, key, value, expiry, since, others, more);
    case Set(k, v, ttl) => SetRetains(c, ev, c', key, value, expiry, since, others, more);
    case _ =>
  }

  lemma GetRetains<V(!new)>(c: Cache<V>, ev: Event<V>, key: Name, value: V, expiry: real,
                            since: nat, others: set<Name>, more: set<Name>)
    requires Sound(c) && ev.op.Get?
    requires Holds(c, key, value, expiry, since, others) && ev.now <= expiry
    requires others <= more && TouchedKeys(c, ev) - {key} <= more
    ensures Holds(AfterGet(c, ev.op.key, ev.now), key, value, expiry, since, more)
  {
    assert Live(c, ev.op.key, ev.now) ==> ev.op.key in TouchedKeys(c, ev);
  }

  lemma SetRetains<V(!new)>(c: Cache<V>, ev: Event<V>, c': Cache<V>, key: Name, value: V, expiry: real,
                            since: nat, others: set<Name>, more: set<Name>)
    requires Sound(c) && ev.op.Set? && Step(c, ev, c') && !Disturbs(ev, key)
    requires Holds(c, key, value, expiry, since, others) && ev.now <= expiry
    requires others <= more && TouchedKeys(c, ev) - {key} <= more && |more| < c.maxSize
    ensures Holds(c', key, value, expiry, since, more)
  {
    var k := ev.op.key;
    assert k in more;
    if |c.entries| >= c.maxSize && k !in c.entries {
      var room :| EvictsLru(c, ev.now, room) && c' == Stored(room, k, ev.op.value, ev.now, ev.op.ttl);
      EvictionSpares(c, ev.now, room, key, since, more, k);
      EvictionMakesRoom(c, ev.now, room);
    }
  }

  ghost function OthersBetween<V>(states: seq<Cache<V>>, events: seq<Event<V>>, from: nat, upto: nat,
                                  key: Name): set<Name>
    requires from <= upto <= |events| <= |states|
  {
    TouchedBetween(states, events, from, upto) - {key}
  }

  lemma OthersGrow<V>(states: seq<Cache<V>>, events: seq<Event<V>>, from: nat, upto: nat, key: Name)
    requires from < upto <= |events| <= |states|
    ensures var before := OthersBetween(states, events, from, upto - 1, key);
            var after := OthersBetween(states, events, from, upto, key);
            && before <= after && |before| <= |after|
            && TouchedKeys(states[upto - 1], events[upto - 1]) - {key} <= after
  {
    SubsetSmaller(OthersBetween(states, events, from, upto - 1, key), OthersBetween(states, events, from, upto, key));
  }

  lemma FreshlyUsed<V>(c: Cache<V>, key: Name, others: set<Name>)
    requires Sound(c) && key in c.entries && c.entries[key].accessSeq == c.seqNo
    ensures Holds(c, key, c.entries[key].value, c.entries[key].expiresAt, c.seqNo, others)
  {
  }

  lemma EventRetains<V(!new)>(states: seq<Cache<V>>, events: seq<Event<V>>, at: nat, n: nat, key: Name, e: Entry<V>)
    requires IsRun(states, events) && Sound(states[0]) && at < n <= |events|
    requires !Disturbs(events[n - 1], key) && events[n - 1].now <= e.expiresAt
    requires |OthersBetween(states, events, at, n, key)| < states[0].maxSize
    requires Holds(states[n - 1], key, e.value, e.expiresAt, e.accessSeq, OthersBetween(states, events, at, n - 1, key))
    ensures Holds(states[n], key, e.value, e.expiresAt, e.accessSeq, OthersBetween(states, events, at, n, key))
  {
    OthersGrow(states, events, at, n, key);
    RunKeepsSound(states, events, n - 1);
    assert StepAt(states, events, n - 1);
    StepRetains(states[n - 1], events[n - 1], states[n], key, e.value, e.expiresAt, e.accessSeq,
                OthersBetween(states, events, at, n - 1, key), OthersBetween(states, events, at, n, key));
  }

  lemma {:induction false} RunRetains<V(!new)>(states: seq<Cache<V>>, events: seq<Event<V>>, at: nat, n: nat, key: Name,
                                               e: Entry<V>)
    requires IsRun(states, events) && Sound(states[0]) && at <= n <= |events|
    requires key in states[at].entries && states[at].entries[key] == e && e.accessSeq == states[at].seqNo
    requires forall i :: at <= i < n ==> !Disturbs(events[i], key)
    requires forall i :: at <= i < n ==> events[i].now <= e.expiresAt
    requires |OthersBetween(states, events, at, n, key)| < states[0].maxSize
    ensures Holds(states[n], key, e.value, e.expiresAt, e.accessSeq, OthersBetween(states, events, at, n, key))
  {
    if n == at {
      RunKeepsSound(states, events, at);
      FreshlyUsed(states[at], key, OthersBetween(states, events, at, at, key));
    } else {
      OthersGrow(states, events, at, n, key);
      RunRetains(states, events, at, n - 1, key, e);
      EventRetains(states, events, at, n, key, e);
    }
  }

  lemma TouchedIsFreshest<V(!new)>(c: Cache<V>, ev: Event<V>, c': Cache<V>, key: Name)
    requires Sound(c) && Step(c, ev, c') && Touches(c, ev, key)
    ensures key in c'.entries && c'.entries[key].accessSeq == c'.seqNo
  {
  }

  /** LRU retention, over every run of a cache: a key that event `at` stored or found alive is still there
      with the same value and the same expiry just before event `n`, unless it expired, was overwritten,
      deleted or cleared, or at least `maxSize` distinct other keys were stored or found alive since. */
  lemma LruRetention<V(!new)>(states: seq<Cache<V>>, events: seq<Event<V>>, at: nat, n: nat, key: Name)
    requires IsRun(states, events) && Sound(states[0]) && at < n < |states|
    requires Touches(states[at], events[at], key)
    requires forall i :: at + 1 <= i < n ==> !Disturbs(events[i], key)
    requires key in states[at + 1].entries
             ==> forall i :: at + 1 <= i < n ==> events[i].now <= states[at + 1].entries[key].expiresAt
    ensures key in states[at + 1].entries
    ensures |OthersBetween(states, events, at + 1, n, key)| < states[0].maxSize
            ==> && key in states[n].entries
                && states[n].entries[key].value == states[at + 1].entries[key].value
                && states[n].entries[key].expiresAt == states[at + 1].entries[key].expiresAt
  {
    RunKeepsSound(states, events, at);
    assert StepAt(states, events, at);
    TouchedIsFreshest(states[at], events[at], states[at + 1], key);
    if |OthersBetween(states, events, at + 1, n, key)| < states[0].maxSize {
      RunRetains(states, events, at + 1, n, key, states[at + 1].entries[key]);
    }
  }

  // ------------------------------------------------------------------ the class

  lemma RemovedOneMore<V>(m: map<Name, Entry<V>>, all: set<Name>, todo: set<Name>, k: Name)
    requires k in todo && todo <= all
    ensures m - (all - todo) - {k} == m - (all - (todo - {k}))
    ensures |todo - {k}| == |todo| - 1
  {
    assert todo == (todo - {k}) + {k};
  }

  lemma SweptAll<V>(c: Cache<V>, c': Cache<V>, stale: set<Name>, now: real)
    requires stale == set k | k in c.entries && Expired(c.entries[k], now)
    requires c'.entries == c.entries - stale && c'.evictions == c.evictions + |stale|
    requires c'.maxSize == c.maxSize && c'.defaultTtl == c.defaultTtl
    requires c'.seqNo == c.seqNo && c'.hits == c.hits && c'.misses == c.misses
    ensures c' == AfterEvictExpired(c, now)
    ensures |c'.entries| == |c.entries| - |stale|
  {
    var m := c.entries;
    assert (m - stale).Keys == m.Keys - stale;
    assert m.Keys == (m.Keys - stale) + stale;
    assert m - stale == Unexpired(m, now);
    assert m.Keys - Unexpired(m, now).Keys == stale;
  }

  lemma StoredFields<V>(room: Cache<V>, c: Cache<V>, key: Name, value: V, now: real, ttl: Option<int>)
    requires c.seqNo == room.seqNo + 1
    requires c.maxSize == room.maxSize && c.defaultTtl == room.defaultTtl
    requires c.hits == room.hits && c.misses == room.misses && c.evictions == room.evictions
    requires var lifetime := if ttl.Some? then ttl.value else room.defaultTtl;
             c.entries == room.entries[key := Entry(value, now + lifetime as real, 1, now, c.seqNo)]
    ensures c == Stored(room, key, value, now, ttl)
  {
  }

  class TTLCache<V(!new)> {
    var entries: map<Name, Entry<V>>
    const maxSize: nat
    const defaultTtl: int
    var seqNo: nat
    var hits: nat
    var misses: nat
    var evictions: nat

    ghost function View(): Cache<V>
      reads this
    {
      Cache(entries, maxSize, defaultTtl, seqNo, hits, misses, evictions)
    }

    constructor (maxSize: nat, defaultTtl: int)
      ensures View() == Cache(map[], maxSize, defaultTtl, 0, 0, 0, 0)
    {
      this.maxSize, this.defaultTtl := maxSize, defaultTtl;
      entries, seqNo, hits, misses, evictions := map[], 0, 0, 0, 0;
    }

    method Get(key: Name, now: real) returns (r: Option<V>)
      modifies this
      ensures r == old(Lookup(View(), key, now))
      ensures View() == old(AfterGet(View(), key, now))
      ensures r.Some? <==> key in old(entries) && now <= old(entries)[key].expiresAt
      ensures r.Some? ==> r.value == old(entries)[key].value && entries.Keys == old(entries).Keys
      ensures r.None? ==> entries == old(entries) - {key} && misses == old(misses) + 1 && hits == old(hits)
      ensures r.Some? ==> hits == old(hits) + 1 && misses == old(misses)
      ensures evictions == old(evictions) + |old(entries)| - |entries|
    {
      if key !in entries {
        misses := misses + 1;
        return None;
      }
      var entry := entries[key];
      if entry.expiresAt < now {
        entries := entries - {key};
        misses := misses + 1;
        evictions := evictions + 1;
        return None;
      }
      seqNo := seqNo + 1;
      entry := entry.(accessCount := entry.accessCount + 1, lastAccessed := now, accessSeq := seqNo);
      entries := entries[key := entry];
      hits := hits + 1;
      r := Some(entry.value);
    }

    method Contains(key: Name, now: real) returns (present: bool)
      modifies this
      ensures present == old(Live(View(), key, now))
      ensures View() == old(AfterGet(View(), key, now))
    {
      var r := Get(key, now);
      present := r.Some?;
    }

    method Set(key: Name, value: V, now: real, ttl: Option<int>)
      requires Sound(View())
      modifies this
      ensures AfterSet(old(View()), key, value, now, ttl, View())
    {
      if |entries| >= maxSize && key !in entries {
        EvictLru(now);
      }
      ghost var room := View();
      var lifetime := if ttl.Some? then ttl.value else defaultTtl;
      seqNo := seqNo + 1;
      entries := entries[key := Entry(value, now + lifetime as real, 1, now, seqNo)];
      StoredFields(room, View(), key, value, now, ttl);
    }

    // Removes the given keys, counting each as an eviction.
    method RemoveAll(stale: set<Name>)
      modifies this`entries, this`evictions
      ensures entries == old(entries) - stale && evictions == old(evictions) + |stale|
    {
      var todo := stale;
      while todo != {}
        invariant todo <= stale
        invariant entries == old(entries) - (stale - todo)
        invariant evictions == old(evictions) + |stale| - |todo|
      {
        var k :| k in todo;
        RemovedOneMore(old(entries), stale, todo, k);
        entries := entries - {k};
        evictions := evictions + 1;
        todo := todo - {k};
      }
      assert stale - {} == stale;
    }

    method EvictExpired(now: real) returns (removed: nat)
      modifies this`entries, this`evictions
      ensures View() == old(AfterEvictExpired(View(), now))
      ensures removed == |old(entries)| - |entries|
      ensures forall k :: k in entries <==> k in old(entries) && old(entries)[k].expiresAt >= now
      ensures forall k :: k in entries ==> entries[k] == old(entries)[k]
    {
      var stale := set k | k in entries && entries[k].expiresAt < now;
      RemoveAll(stale);
      SweptAll(old(View()), View(), stale, now);
      removed := |stale|;
    }

    method EvictLru(now: real)
      requires Sound(View()) && |entries| >= maxSize
      modifies this`entries, this`evictions
      ensures EvictsLru(old(View()), now, View())
    {
      var _ := EvictExpired(now);
      if |entries| < maxSize {
        return;
      }
      assert entries.Keys != {};
      var oldest := LeastRecentlyUsed();
      entries := entries - {oldest};
      evictions := evictions + 1;
    }

    method LeastRecentlyUsed() returns (oldest: Name)
      requires entries.Keys != {}
      ensures IsOldest(entries, oldest)
    {
      oldest :| oldest in entries;
      var todo := entries.Keys - {oldest};
      while todo != {}
        invariant todo <= entries.Keys && oldest in entries
        invariant forall j :: j in entries && j !in todo ==> entries[oldest].accessSeq <= entries[j].accessSeq
      {
        var k :| k in todo;
        if entries[k].accessSeq < entries[oldest].accessSeq {
          oldest := k;
        }
        todo := todo - {k};
      }
    }

    method Delete(key: Name) returns (removed: bool)
      modifies this
      ensures removed == (key in old(entries))
      ensures View() == old(View()).(entries := old(entries) - {key})
    {
      removed := key in entries;
      entries := entries - {key};
    }

    method Clear()
      modifies this
      ensures View() == Cache(map[], maxSize, defaultTtl, 0, 0, 0, 0)
    {
      entries, seqNo, hits, misses, evictions := map[], 0, 0, 0, 0;
    }
  }
}
