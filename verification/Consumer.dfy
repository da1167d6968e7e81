/** Idempotent message handling (app/consumers/kafka_consumer.py): what one delivery does, and how far apart
    two handler executions for the same message id must lie. */
module Consumer {
  import opened Outcomes
  import opened Cache

  const MAX_ATTEMPTS := 3
  const CACHE_SIZE: nat := 10000
  const CACHE_TTL := 300

  datatype HandlerOutcome = Done | Raised(retriable: bool)

  // The outcome of each handler call, numbered from 1.
  type Handler = nat -> HandlerOutcome

  datatype Message =
    | Malformed
    | ChatMessage(messageId: Name, responseMessageId: string)

  datatype Effect =
    | Handle(messageId: Name, attempt: nat)
    | DeadLetter(errorType: string, retryCount: nat)
    | Commit(offset: nat)

  // ------------------------------------------------------------------ retries

  // `calls` is the number of handler calls a delivery makes: it stops at the first success, at the first
  // error that is not retriable, or at the third call.
  ghost predicate StopsAfter(handler: Handler, calls: nat) {
    && 1 <= calls <= MAX_ATTEMPTS
    && (forall a: nat :: 1 <= a < calls ==> handler(a) == Raised(true))
    && (calls < MAX_ATTEMPTS ==> handler(calls) != Raised(true))
  }

  lemma StopsAfterIsUnique(handler: Handler, a: nat, b: nat)
    requires StopsAfter(handler, a) && StopsAfter(handler, b)
    ensures a == b
  {
    assert a < b ==> handler(a) == Raised(true);
    assert b < a ==> handler(b) == Raised(true);
  }

  ghost predicate AreCalls(messageId: Name, calls: nat, effects: seq<Effect>) {
    && |effects| == calls
    && forall a: nat :: a < calls ==> effects[a] == Handle(messageId, a + 1)
  }

  // What a delivery that is neither a duplicate nor unusable does: the calls, a dead letter unless the last
  // call succeeded, then one commit.
  ghost predicate IsExecution(messageId: Name, offset: nat, handler: Handler, effects: seq<Effect>) {
    exists calls: nat ::
      && StopsAfter(handler, calls) && calls < |effects|
      && AreCalls(messageId, calls, effects[..calls])
      && effects[calls..] ==
           (if handler(calls).Done? then [] else [DeadLetter("PipelineError", 3)]) + [Commit(offset + 1)]
  }

  class KafkaConsumerEngine {
    const processedIds: TTLCache<bool>
    var effects: seq<Effect>

    constructor ()
      ensures fresh(processedIds) && effects == []
      ensures processedIds.View() == Cache(map[], CACHE_SIZE, CACHE_TTL, 0, 0, 0, 0)
    {
      processedIds := new TTLCache(CACHE_SIZE, CACHE_TTL);
      effects := [];
    }

    method ExecuteWithConsumerRetries(messageId: Name, handler: Option<Handler>) returns (success: bool)
      modifies this`effects
      ensures handler.None? ==> success && effects == old(effects)
      ensures handler.Some? ==>
                exists calls: nat ::
                  && StopsAfter(handler.value, calls)
                  && (success <==> handler.value(calls).Done?)
                  && old(effects) <= effects
                  && AreCalls(messageId, calls, effects[|old(effects)|..])
    {
      if handler.None? {
        return true;
      }
      var attempt := 1;
      while attempt <= MAX_ATTEMPTS
        invariant 1 <= attempt <= MAX_ATTEMPTS
        invariant forall a: nat :: 1 <= a < attempt ==> handler.value(a) == Raised(true)
        invariant old(effects) <= effects
        invariant AreCalls(messageId, attempt - 1, effects[|old(effects)|..])
        decreases MAX_ATTEMPTS - attempt
      {
        effects := effects + [Handle(messageId, attempt)];
        assert StopsAfter(handler.value, attempt) || (attempt < MAX_ATTEMPTS && handler.value(attempt) == Raised(true));
        assert AreCalls(messageId, attempt, effects[|old(effects)|..]);
        match handler.value(attempt)
        case Done =>
          return true;
        case Raised(retriable) =>
          if !(attempt < MAX_ATTEMPTS && retriable) {
            return false;
          }
        attempt := attempt + 1;
      }
      success := false;
    }

    method ProcessSingleMessage(msg: Message, offset: nat, now: real, handler: Option<Handler>)
      requires Sound(processedIds.View())
      modifies this, processedIds
      ensures old(effects) <= effects
      ensures var done := effects[|old(effects)|..];
              match msg
              case Malformed =>
                done == [DeadLetter("DeserializationError", 0), Commit(offset + 1)]
                && processedIds.View() == old(processedIds.View())
              case ChatMessage(id, reply) =>
                if reply == "" then
                  done == [DeadLetter("ContractViolation", 0), Commit(offset + 1)]
                  && processedIds.View() == old(processedIds.View())
                else
                  && Delivered(old(processedIds.View()), Delivery(id, now), processedIds.View())
                  && if old(Live(processedIds.View(), id, now)) || handler.None? then done == [Commit(offset + 1)]
                     else IsExecution(id, offset, handler.value, done)
    {
      if msg.Malformed? {
        effects := effects + [DeadLetter("DeserializationError", 0), Commit(offset + 1)];
        return;
      }
      if msg.responseMessageId == "" {
        effects := effects + [DeadLetter("ContractViolation", 0), Commit(offset + 1)];
        return;
      }
      var id := msg.messageId;
      ghost var first := processedIds.View();
      var duplicate := processedIds.Contains(id, now);
      StepKeepsSound(first, Event(Get(id), now), processedIds.View());
      if duplicate {
        effects := effects + [Commit(offset + 1)];
        return;
      }
      processedIds.Set(id, true, now, None);
      RunAndCommit(id, offset, handler);
    }

    // Runs the handler, reports a failure, and commits either way.
    method RunAndCommit(id: Name, offset: nat, handler: Option<Handler>)
      modifies this`effects
      ensures old(effects) <= effects
      ensures var done := effects[|old(effects)|..];
              if handler.None? then done == [Commit(offset + 1)] else IsExecution(id, offset, handler.value, done)
    {
      var success := ExecuteWithConsumerRetries(id, handler);
      ghost var made := effects[|old(effects)|..];
      if success {
        effects := effects + [Commit(offset + 1)];
        assert effects[|old(effects)|..] == made + [Commit(offset + 1)];
      } else {
        effects := effects + [DeadLetter("PipelineError", 3)] + [Commit(offset + 1)];
        assert effects[|old(effects)|..] == made + [DeadLetter("PipelineError", 3), Commit(offset + 1)];
      }
      if handler.Some? {
        ghost var calls: nat :| StopsAfter(handler.value, calls) && AreCalls(id, calls, made)
                                && (success <==> handler.value(calls).Done?);
        assert effects[|old(effects)|..][..calls] == made;
      }
    }
  }

  /** A first error that is not retriable is reported as three retries after one call. */
  lemma OneCallIsReportedAsThree(id: Name, offset: nat, handler: Handler)
    requires handler(1) == Raised(false)
    ensures IsExecution(id, offset, handler, [Handle(id, 1), DeadLetter("PipelineError", 3), Commit(offset + 1)])
  {
    var effects := [Handle(id, 1), DeadLetter("PipelineError", 3), Commit(offset + 1)];
    assert effects[..1] == [Handle(id, 1)] && effects[1..] == [DeadLetter("PipelineError", 3)] + [Commit(offset + 1)];
    assert StopsAfter(handler, 1) && AreCalls(id, 1, effects[..1]);
  }

  /** The dead letter always reports three retries; that is the number of calls made exactly when the first
      two errors were retriable. */
  lemma ReportedRetriesAreCalls(handler: Handler, calls: nat)
    requires StopsAfter(handler, calls) && !handler(calls).Done?
    ensures calls == 3 <==> handler(1) == Raised(true) && handler(2) == Raised(true)
  {
  }

  // ------------------------------------------------------------------ duplicate suppression

  datatype Delivery = Delivery(messageId: Name, now: real)

  // The cache transition of one valid delivery: look the id up and, when it is not there, remember it.
  ghost predicate Delivered(c: Cache<bool>, d: Delivery, c': Cache<bool>) {
    var looked := AfterGet(c, d.messageId, d.now);
    if Live(c, d.messageId, d.now) then c' == looked
    else AfterSet(looked, d.messageId, true, d.now, None, c')
  }

  ghost predicate DeliveredAt(states: seq<Cache<bool>>, ds: seq<Delivery>, i: nat)
    requires i < |ds| && |states| == |ds| + 1
  {
    Delivered(states[i], ds[i], states[i + 1])
  }

  // The deliveries in the order of their idempotency checks, on a monotone clock.
  ghost predicate IsDeliveryRun(states: seq<Cache<bool>>, ds: seq<Delivery>) {
    && |states| == |ds| + 1
    && states[0] == Cache(map[], CACHE_SIZE, CACHE_TTL, 0, 0, 0, 0)
    && (forall i :: 0 <= i < |ds| ==> DeliveredAt(states, ds, i))
    && (forall i, j :: 0 <= i <= j < |ds| ==> ds[i].now <= ds[j].now)
  }

  ghost predicate Executes(states: seq<Cache<bool>>, ds: seq<Delivery>, i: nat)
    requires i < |ds| && |states| == |ds| + 1
  {
    !Live(states[i], ds[i].messageId, ds[i].now)
  }

  // The ids other than `id` among the deliveries from..upto.
  ghost function OtherIds(ds: seq<Delivery>, id: Name, from: nat, upto: nat): set<Name>
    requires from <= upto <= |ds|
  {
    set k: nat | from <= k < upto && ds[k].messageId != id :: ds[k].messageId
  }

  lemma DeliveryKeepsSound(c: Cache<bool>, d: Delivery, c': Cache<bool>)
    requires Sound(c) && Delivered(c, d, c')
    ensures Sound(c') && c'.maxSize == c.maxSize && c'.defaultTtl == c.defaultTtl
    ensures !Live(c, d.messageId, d.now) ==> Remembered(c', d.messageId, d.now + c.defaultTtl as real)
  {
    var looked := AfterGet(c, d.messageId, d.now);
    StepKeepsSound(c, Event(Op.Get(d.messageId), d.now), looked);
    if !Live(c, d.messageId, d.now) {
      StepKeepsSound(looked, Event(Op.Set(d.messageId, true, None), d.now), c');
      SetRemembers(looked, d.messageId, d.now, c');
    }
  }

  ghost predicate Remembered(c: Cache<bool>, id: Name, expiry: real) {
    id in c.entries && c.entries[id].value && c.entries[id].expiresAt == expiry && c.entries[id].accessSeq == c.seqNo
  }

  lemma SetRemembers(c: Cache<bool>, id: Name, now: real, c': Cache<bool>)
    requires Sound(c) && AfterSet(c, id, true, now, None, c')
    ensures Remembered(c', id, now + c.defaultTtl as real)
  {
    if |c.entries| >= c.maxSize && id !in c.entries {
      var room :| EvictsLru(c, now, room) && c' == Stored(room, id, true, now, None);
      EvictionMakesRoom(c, now, room);
    }
  }

  lemma DeliveryRetains(c: Cache<bool>, d: Delivery, c': Cache<bool>, id: Name, expiry: real, since: nat,
                        others: set<Name>, more: set<Name>)
    requires Sound(c) && Delivered(c, d, c') && d.now <= expiry
    requires Holds(c, id, true, expiry, since, others)
    requires others <= more && (d.messageId != id ==> d.messageId in more) && |more| < c.maxSize
    ensures Holds(c', id, true, expiry, since, more)
  {
    var looked := AfterGet(c, d.messageId, d.now);
    var get := Event(Op.Get(d.messageId), d.now);
    StepRetains(c, get, looked, id, true, expiry, since, others, more);
    StepKeepsSound(c, get, looked);
    if !Live(c, d.messageId, d.now) {
      StepRetains(looked, Event(Op.Set(d.messageId, true, None), d.now), c', id, true, expiry, since, more, more);
    }
  }

  lemma SoundAfter(states: seq<Cache<bool>>, ds: seq<Delivery>, i: nat)
    requires i < |ds| && |states| == |ds| + 1 && DeliveredAt(states, ds, i) && Sound(states[i])
    ensures var c, c' := states[i], states[i + 1];
            Sound(c') && c'.maxSize == c.maxSize && c'.defaultTtl == c.defaultTtl
  {
    DeliveryKeepsSound(states[i], ds[i], states[i + 1]);
  }

  lemma {:induction false} DeliveriesKeepSound(states: seq<Cache<bool>>, ds: seq<Delivery>, n: nat)
    requires IsDeliveryRun(states, ds) && n < |states|
    ensures Sound(states[n]) && states[n].maxSize == CACHE_SIZE && states[n].defaultTtl == CACHE_TTL
  {
    if n > 0 {
      DeliveriesKeepSound(states, ds, n - 1);
      SoundAfter(states, ds, n - 1);
    }
  }

  lemma OtherIdsGrow(ds: seq<Delivery>, id: Name, from: nat, m: nat)
    requires from <= m < |ds|
    ensures OtherIds(ds, id, from, m) <= OtherIds(ds, id, from, m + 1)
    ensures ds[m].messageId != id ==> ds[m].messageId in OtherIds(ds, id, from, m + 1)
  {
  }

  lemma KeptOneMore(states: seq<Cache<bool>>, ds: seq<Delivery>, m: nat, id: Name, expiry: real, since: nat,
                    others: set<Name>, more: set<Name>)
    requires IsDeliveryRun(states, ds) && m < |ds| && ds[m].now <= expiry
    requires Holds(states[m], id, true, expiry, since, others)
    requires others <= more && (ds[m].messageId != id ==> ds[m].messageId in more) && |more| < CACHE_SIZE
    ensures Holds(states[m + 1], id, true, expiry, since, more)
  {
    DeliveriesKeepSound(states, ds, m);
    assert DeliveredAt(states, ds, m);
    DeliveryRetains(states[m], ds[m], states[m + 1], id, expiry, since, others, more);
  }

  lemma FirstHeld(states: seq<Cache<bool>>, ds: seq<Delivery>, i: nat)
    requires IsDeliveryRun(states, ds) && i < |ds| && Executes(states, ds, i)
    ensures Holds(states[i + 1], ds[i].messageId, true, ds[i].now + CACHE_TTL as real, states[i + 1].seqNo,
                  OtherIds(ds, ds[i].messageId, i + 1, i + 1))
  {
    DeliveriesKeepSound(states, ds, i);
    assert DeliveredAt(states, ds, i);
    DeliveryKeepsSound(states[i], ds[i], states[i + 1]);
    FreshlyUsed(states[i + 1], ds[i].messageId, OtherIds(ds, ds[i].messageId, i + 1, i + 1));
  }

  lemma {:induction false} HeldUntil(states: seq<Cache<bool>>, ds: seq<Delivery>, i: nat, m: nat)
    requires IsDeliveryRun(states, ds) && i < m <= |ds| && Executes(states, ds, i)
    requires ds[m - 1].now <= ds[i].now + CACHE_TTL as real
    requires |OtherIds(ds, ds[i].messageId, i + 1, m)| < CACHE_SIZE
    ensures Holds(states[m], ds[i].messageId, true, ds[i].now + CACHE_TTL as real, states[i + 1].seqNo,
                  OtherIds(ds, ds[i].messageId, i + 1, m))
  {
    if m == i + 1 {
      FirstHeld(states, ds, i);
    } else {
      var id := ds[i].messageId;
      OtherIdsGrow(ds, id, i + 1, m - 1);
      assert ds[m - 2].now <= ds[m - 1].now;
      SubsetSmaller(OtherIds(ds, id, i + 1, m - 1), OtherIds(ds, id, i + 1, m));
      HeldUntil(states, ds, i, m - 1);
      KeptOneMore(states, ds, m - 1, id, ds[i].now + CACHE_TTL as real, states[i + 1].seqNo,
                  OtherIds(ds, id, i + 1, m - 1), OtherIds(ds, id, i + 1, m));
    }
  }

  /** Duplicate suppression, over every delivery sequence: when two deliveries of one message id both run the
      handler, more than 300 seconds or at least 10000 distinct other ids lie between them. */
  lemma DuplicateSuppression(states: seq<Cache<bool>>, ds: seq<Delivery>, i: nat, j: nat)
    requires IsDeliveryRun(states, ds) && i < j < |ds|
    requires ds[i].messageId == ds[j].messageId
    requires Executes(states, ds, i) && Executes(states, ds, j)
    ensures ds[j].now - ds[i].now > 300.0 || |OtherIds(ds, ds[i].messageId, i + 1, j)| >= 10000
  {
    if ds[j].now <= ds[i].now + CACHE_TTL as real && |OtherIds(ds, ds[i].messageId, i + 1, j)| < CACHE_SIZE {
      assert ds[j - 1].now <= ds[j].now;
      HeldUntil(states, ds, i, j);
    }
  }
}
