/** Nothing outlives its lifetime: the other half of what the cache promises (app/utils/cache.py), and what it means for
    redelivered messages (app/consumers/kafka_consumer.py). */
module Freshness {
  import opened Outcomes
  import opened Cache
  import opened Consumer

  // Event s stored the key, and until event n nothing stored it again, deleted it or cleared the cache.
  ghost predicate LastStored<V>(events: seq<Event<V>>, key: Name, s: nat, n: nat)
    requires n <= |events|
  {
    && s < n && events[s].op.Set? && events[s].op.key == key
    && forall i :: s < i < n ==> events[i].op != Clear && events[i].op != Delete(key)
                                 && !(events[i].op.Set? && events[i].op.key == key)
  }

  // The lifetime that a store asks for.
  function Lifetime<V>(op: Op<V>, defaultTtl: int): real
    requires op.Set?
  {
    if op.ttl.Some? then op.ttl.value as real else defaultTtl as real
  }

  lemma SetStores<V(!new)>(c: Cache<V>, ev: Event<V>, c': Cache<V>, key: Name)
    requires Sound(c) && ev.op.Set? && AfterSet(c, ev.op.key, ev.op.value, ev.now, ev.op.ttl, c') && key in c'.entries
    ensures if ev.op.key == key then
              && c'.entries[key].value == ev.op.value
              && c'.entries[key].expiresAt == ev.now + Lifetime(ev.op, c.defaultTtl)
            else key in c.entries && c'.entries[key] == c.entries[key]
  {
    if |c.entries| >= c.maxSize && ev.op.key !in c.entries {
      var room :| EvictsLru(c, ev.now, room) && c' == Stored(room, ev.op.key, ev.op.value, ev.now, ev.op.ttl);
      EvictionMakesRoom(c, ev.now, room);
    }
  }

  // An event leaves what it does not store as it was.
  lemma StoredNowOrBefore<V(!new)>(c: Cache<V>, ev: Event<V>, c': Cache<V>, key: Name)
    requires Sound(c) && Step(c, ev, c') && key in c'.entries
    ensures if ev.op.Set? && ev.op.key == key then
              && c'.entries[key].value == ev.op.value
              && c'.entries[key].expiresAt == ev.now + Lifetime(ev.op, c.defaultTtl)
            else
              && ev.op != Clear && ev.op != Delete(key) && key in c.entries
              && c'.entries[key].value == c.entries[key].value && c'.entries[key].expiresAt == c.entries[key].expiresAt
  {
    match ev.op
    case Set(k, v, ttl) => SetStores(c, ev, c', key);
    case _ =>
  }

  lemma {:induction false} StoredByLastSet<V(!new)>(states: seq<Cache<V>>, events: seq<Event<V>>, n: nat, key: Name)
    returns (s: nat)
    requires IsRun(states, events) && Sound(states[0]) && states[0].entries == map[]
    requires n <= |events| && key in states[n].entries
    ensures LastStored(events, key, s, n) && events[s].op.value == states[n].entries[key].value
    ensures states[n].entries[key].expiresAt == events[s].now + Lifetime(events[s].op, states[0].defaultTtl)
  {
    assert StepAt(states, events, n - 1);
    RunKeepsSound(states, events, n - 1);
    StoredNowOrBefore(states[n - 1], events[n - 1], states[n], key);
    if events[n - 1].op.Set? && events[n - 1].op.key == key {
      s := n - 1;
    } else {
      s := StoredByLastSet(states, events, n - 1, key);
    }
  }

  /** Freshness, over every run of a cache that starts empty: a value that event n finds was stored by the last
      `Set` of its key, with no `Delete` or `Clear` since, and is no older than the lifetime it was stored with. */
  lemma FoundIsFresh<V(!new)>(states: seq<Cache<V>>, events: seq<Event<V>>, n: nat, key: Name) returns (s: nat)
    requires IsRun(states, events) && Sound(states[0]) && states[0].entries == map[] && n < |events|
    requires Lookup(states[n], key, events[n].now).Some?
    ensures LastStored(events, key, s, n) && Lookup(states[n], key, events[n].now) == Some(events[s].op.value)
    ensures events[n].now <= events[s].now + Lifetime(events[s].op, states[0].defaultTtl)
  {
    s := StoredByLastSet(states, events, n, key);
  }

  // ------------------------------------------------------------------ deliveries

  // A delivery remembers its own id for 300 seconds and leaves what is remembered of the others as it was.
  lemma RememberedNowOrBefore(c: Cache<bool>, d: Delivery, c': Cache<bool>, id: Name)
    requires Sound(c) && Delivered(c, d, c') && id in c'.entries
    ensures if d.messageId == id && !Live(c, id, d.now) then c'.entries[id].expiresAt == d.now + c.defaultTtl as real
            else id in c.entries && c'.entries[id].expiresAt == c.entries[id].expiresAt
  {
    var looked := AfterGet(c, d.messageId, d.now);
    var get := Event(Op.Get(d.messageId), d.now);
    StepKeepsSound(c, get, looked);
    if !Live(c, d.messageId, d.now) {
      StoredNowOrBefore(looked, Event(Op.Set(d.messageId, true, None), d.now), c', id);
    }
  }

  lemma {:induction false} RememberedByExecution(states: seq<Cache<bool>>, ds: seq<Delivery>, n: nat, id: Name)
    returns (k: nat)
    requires IsDeliveryRun(states, ds) && n <= |ds| && id in states[n].entries
    ensures k < n && ds[k].messageId == id && Executes(states, ds, k)
    ensures states[n].entries[id].expiresAt == ds[k].now + 300.0
  {
    assert DeliveredAt(states, ds, n - 1);
    DeliveriesKeepSound(states, ds, n - 1);
    RememberedNowOrBefore(states[n - 1], ds[n - 1], states[n], id);
    if ds[n - 1].messageId == id && Executes(states, ds, n - 1) {
      k := n - 1;
    } else {
      k := RememberedByExecution(states, ds, n - 1, id);
    }
  }

  /** No message is held back longer than the window, over every delivery sequence: a delivery that is not executed
      comes at most 300 seconds after an execution of the same id. */
  lemma HeldBackIsRecent(states: seq<Cache<bool>>, ds: seq<Delivery>, j: nat) returns (k: nat)
    requires IsDeliveryRun(states, ds) && j < |ds| && !Executes(states, ds, j)
    ensures k < j && ds[k].messageId == ds[j].messageId && Executes(states, ds, k) && ds[j].now - ds[k].now <= 300.0
  {
    k := RememberedByExecution(states, ds, j, ds[j].messageId);
  }

  /** When a delivery is executed: always when no execution of its id lies within the last 300 seconds, and
      otherwise only if at least 10000 distinct other ids were delivered since that execution. */
  lemma ExecutedWhen(states: seq<Cache<bool>>, ds: seq<Delivery>, j: nat)
    requires IsDeliveryRun(states, ds) && j < |ds|
    ensures (forall k :: 0 <= k < j && ds[k].messageId == ds[j].messageId && Executes(states, ds, k)
                         ==> ds[j].now - ds[k].now > 300.0)
            ==> Executes(states, ds, j)
    ensures Executes(states, ds, j) ==>
              forall k :: 0 <= k < j && ds[k].messageId == ds[j].messageId && Executes(states, ds, k)
                          && ds[j].now - ds[k].now <= 300.0
                          ==> |OtherIds(ds, ds[j].messageId, k + 1, j)| >= 10000
  {
    if !Executes(states, ds, j) {
      var k := HeldBackIsRecent(states, ds, j);
    } else {
      forall k | 0 <= k < j && ds[k].messageId == ds[j].messageId && Executes(states, ds, k)
                 && ds[j].now - ds[k].now <= 300.0
        ensures |OtherIds(ds, ds[j].messageId, k + 1, j)| >= 10000
      {
        DuplicateSuppression(states, ds, k, j);
      }
    }
  }
}
