/** How many rounds of the relay empty the outbox table. A stale claim that is put back to failed starts its
    backoff anew, so it may be fetched, take a place in the batch, and be let go again. */
module Draining {
  import opened Prelude
  import opened Outbox
  import opened Relaying

  /** Rows that a fetch could still pick. */
  function Remaining(rows: map<Id, Row>, maxRetries: nat): set<Id> {
    set id | id in rows && Candidate(rows[id], maxRetries)
  }

  // ---------------------------------------------------------------- one batch with a succeeding publisher

  function PublishedAt(rows: map<Id, Row>, ids: seq<Id>, now: Time): map<Id, Row> {
    map id | id in rows :: if id in ids then rows[id].(status := Published, updatedAt := now) else rows[id]
  }

  /** How many events of a batch are let go because their backoff runs. */
  function Held(claims: seq<Claim>, now: Time, o: Outside): (n: nat)
    ensures n <= |claims|
  {
    if claims == [] then 0
    else
      var c := claims[|claims| - 1];
      Held(claims[..|claims| - 1], now, o) + if Eligible(c, now, DelayOf(o, c)) then 0 else 1
  }

  /** The table after i events of a batch: the delivered ones are published, those let go are as they were before
      the claim, and the rest is still claimed. */
  function Midway(rows: map<Id, Row>, picked: seq<Id>, i: nat, sent: seq<Id>, fetchedAt: Time, now: Time): map<Id, Row>
    requires i <= |picked|
  {
    map id | id in rows ::
      if id in sent then rows[id].(status := Published, updatedAt := now)
      else if id in picked[i..] then rows[id].(status := Processing, updatedAt := fetchedAt)
      else rows[id]
  }

  lemma MidwayNext(rows: map<Id, Row>, picked: seq<Id>, i: nat, sent: seq<Id>, fetchedAt: Time, now: Time, o: Outside)
    requires i < |picked| && Distinct(picked) && forall id :: id in sent ==> id in picked[..i]
    requires picked[i] in rows && picked[i] in o.accepts
    requires rows[picked[i]].status == Pending || rows[picked[i]].status == Failed
    ensures var c := ClaimOf(rows, picked[i]);
            Handled(Midway(rows, picked, i, sent, fetchedAt, now), c, now, o)
            == Midway(rows, picked, i + 1, if Accepted(c, now, o) then sent + [c.id] else sent, fetchedAt, now)
  {
    hide DelayOf;
    var id := picked[i];
    var c := ClaimOf(rows, id);
    assert picked[i..] == [id] + picked[i + 1..];
    assert id !in picked[i + 1..];
    assert id !in sent;
    assert Midway(rows, picked, i, sent, fetchedAt, now)[id] == rows[id].(status := Processing, updatedAt := fetchedAt);
  }

  /** What one batch has done to its first i events. */
  ghost predicate SoFar(
    rows: map<Id, Row>, picked: seq<Id>, fetchedAt: Time, now: Time, o: Outside, claims: seq<Claim>)
    requires |claims| <= |picked|
  {
    var i, sent := |claims|, Delivered(claims, now, o);
    && AllHandled(Claimed(rows, picked, fetchedAt), claims, now, o) == Midway(rows, picked, i, sent, fetchedAt, now)
    && Distinct(sent) && (forall id :: id in sent ==> id in picked[..i])
    && |sent| + Held(claims, now, o) == i
  }

  lemma NothingYet(rows: map<Id, Row>, picked: seq<Id>, fetchedAt: Time, now: Time, o: Outside)
    ensures SoFar(rows, picked, fetchedAt, now, o, [])
  {
    assert picked[0..] == picked;
  }

  lemma OneMore(
    rows: map<Id, Row>, picked: seq<Id>, fetchedAt: Time, now: Time, o: Outside, claims: seq<Claim>, c: Claim)
    requires |claims| < |picked| && Distinct(picked) && SoFar(rows, picked, fetchedAt, now, o, claims)
    requires var id := picked[|claims|];
             && id in rows && id in o.accepts && c == ClaimOf(rows, id)
             && (rows[id].status == Pending || rows[id].status == Failed)
    ensures SoFar(rows, picked, fetchedAt, now, o, claims + [c])
  {
    hide Eligible, DelayOf, Handled, Midway, Claimed, Accepted;
    var sent := Delivered(claims, now, o);
    assert (claims + [c])[..|claims|] == claims;
    assert picked[..|claims| + 1] == picked[..|claims|] + [picked[|claims|]];
    assert picked[|claims|] !in picked[..|claims|];
    MidwayNext(rows, picked, |claims|, sent, fetchedAt, now, o);
    AcceptedIffEligible(c, now, o);
    assert Delivered(claims + [c], now, o) == if Accepted(c, now, o) then sent + [c.id] else sent;
  }

  lemma AcceptedIffEligible(c: Claim, now: Time, o: Outside)
    requires c.id in o.accepts
    ensures Accepted(c, now, o) <==> Eligible(c, now, DelayOf(o, c))
  {
  }

  lemma {:induction false} BatchSoFar(
    rows: map<Id, Row>, maxRetries: nat, limit: nat, picked: seq<Id>, fetchedAt: Time, now: Time, o: Outside, i: nat)
    requires IsPick(rows, maxRetries, limit, {}, picked) && i <= |picked|
    requires forall k :: 0 <= k < |picked| ==> picked[k] in o.accepts
    ensures SoFar(rows, picked, fetchedAt, now, o, ClaimsOf(rows, picked)[..i])
  {
    hide SoFar;
    if i == 0 {
      NothingYet(rows, picked, fetchedAt, now, o);
    } else {
      var claims := ClaimsOf(rows, picked);
      BatchSoFar(rows, maxRetries, limit, picked, fetchedAt, now, o, i - 1);
      OneMore(rows, picked, fetchedAt, now, o, claims[..i - 1], claims[i - 1]);
      assert claims[..i] == claims[..i - 1] + [claims[i - 1]];
    }
  }

  /** A batch publishes the events that are due, and leaves every other row as it was before the claim. */
  lemma {:induction false} BatchPublishes(
    rows: map<Id, Row>, maxRetries: nat, limit: nat, picked: seq<Id>, fetchedAt: Time, now: Time, o: Outside)
    requires IsPick(rows, maxRetries, limit, {}, picked)
    requires forall k :: 0 <= k < |picked| ==> picked[k] in o.accepts
    ensures var claims := ClaimsOf(rows, picked);
            var sent := Delivered(claims, now, o);
            && AllHandled(Claimed(rows, picked, fetchedAt), claims, now, o) == PublishedAt(rows, sent, now)
            && Distinct(sent) && (forall id :: id in sent ==> id in picked)
            && |sent| + Held(claims, now, o) == |picked|
  {
    hide IsPick, AllHandled, Delivered, Held, Claimed;
    PickedExist(rows, maxRetries, limit, picked);
    var claims := ClaimsOf(rows, picked);
    BatchSoFar(rows, maxRetries, limit, picked, fetchedAt, now, o, |picked|);
    assert claims[..|picked|] == claims && picked[..|picked|] == picked && picked[|picked|..] == [];
  }

  // ---------------------------------------------------------------- counting

  function SetOf(ids: seq<Id>): set<Id> {
    set i | 0 <= i < |ids| :: ids[i]
  }

  lemma InSetOf(ids: seq<Id>, x: Id)
    ensures x in SetOf(ids) <==> x in ids
  {
    if x in ids {
      var i :| 0 <= i < |ids| && ids[i] == x;
      assert ids[i] in SetOf(ids);
    }
  }

  lemma {:induction false} DistinctCount(ids: seq<Id>)
    requires Distinct(ids)
    ensures |SetOf(ids)| == |ids|
  {
    if ids != [] {
      hide SetOf;
      var n := |ids| - 1;
      DistinctCount(ids[..n]);
      assert ids == ids[..n] + [ids[n]];
      forall x ensures x in SetOf(ids) <==> x in SetOf(ids[..n]) || x == ids[n] {
        InSetOf(ids, x);
        InSetOf(ids[..n], x);
      }
      InSetOf(ids[..n], ids[n]);
      assert SetOf(ids) == SetOf(ids[..n]) + {ids[n]};
    } else {
      assert SetOf(ids) == {};
    }
  }

  lemma {:induction false} SubsetCount(a: set<Id>, b: set<Id>)
    requires a <= b
    ensures |a| <= |b| && (|a| == |b| ==> a == b)
  {
    if a != {} {
      var x :| x in a;
      SubsetCount(a - {x}, b - {x});
    }
  }

  lemma DifferenceCount(a: set<Id>, b: set<Id>)
    requires b <= a
    ensures |a - b| == |a| - |b|
  {
    assert a == (a - b) + b;
  }

  /** A fetch takes the batch size, or everything that is left. */
  lemma PickCount(rows: map<Id, Row>, maxRetries: nat, limit: nat, picked: seq<Id>)
    requires IsPick(rows, maxRetries, limit, {}, picked)
    ensures var left := Remaining(rows, maxRetries);
            && SetOf(picked) <= left && |SetOf(picked)| == |picked|
            && |picked| == if |left| <= limit then |left| else limit
  {
    var left, taken := Remaining(rows, maxRetries), SetOf(picked);
    DistinctCount(picked);
    SubsetCount(taken, left);
    if taken != left {
      var id :| id in left && id !in taken;
      assert id !in picked;
    }
  }

  lemma SubsequenceOf(ids: seq<Id>, picked: seq<Id>)
    requires forall id :: id in ids ==> id in picked
    ensures SetOf(ids) <= SetOf(picked)
  {
    forall x | x in SetOf(ids) ensures x in SetOf(picked) {
      InSetOf(ids, x);
      InSetOf(picked, x);
    }
  }

  lemma PublishedRemain(rows: map<Id, Row>, maxRetries: nat, now: Time, sent: seq<Id>)
    ensures Remaining(PublishedAt(rows, sent, now), maxRetries) == Remaining(rows, maxRetries) - SetOf(sent)
  {
    var left, left' := Remaining(rows, maxRetries), Remaining(PublishedAt(rows, sent, now), maxRetries);
    forall id ensures id in left' <==> id in left && id !in SetOf(sent) {
      InSetOf(sent, id);
    }
  }

  function AfterBatch(n: nat, batch: nat): nat {
    if n <= batch then 0 else n - batch
  }

  /** Every event delivered leaves what remains, and nothing else does. */
  lemma {:induction false} BatchDrains(
    rows: map<Id, Row>, maxRetries: nat, limit: nat, picked: seq<Id>, sent: seq<Id>, now: Time)
    requires IsPick(rows, maxRetries, limit, {}, picked)
    requires Distinct(sent) && forall id :: id in sent ==> id in picked
    ensures var left := Remaining(rows, maxRetries);
            var left' := Remaining(PublishedAt(rows, sent, now), maxRetries);
            && SetOf(sent) <= left && left' == left - SetOf(sent)
            && |left'| == AfterBatch(|left|, limit) + |picked| - |sent|
  {
    hide Remaining, SetOf, IsPick, PublishedAt, Distinct;
    PickCount(rows, maxRetries, limit, picked);
    DistinctCount(sent);
    SubsequenceOf(sent, picked);
    PublishedRemain(rows, maxRetries, now, sent);
    DifferenceCount(Remaining(rows, maxRetries), SetOf(sent));
  }

  // ---------------------------------------------------------------- rounds

  /** One round: when it fetches, when it stamps, and what the outside decides. */
  datatype Round = Round(fetchedAt: Time, now: Time, o: Outside)

  predicate RoundSucceeds(round: Round, rows: map<Id, Row>, b: Backoff) {
    && round.fetchedAt <= round.now && rows.Keys <= round.o.accepts
    && forall id :: id in rows ==> Sampled(b, ClaimOf(rows, id), DelayOf(round.o, ClaimOf(rows, id)))
  }

  /** Rounds in clock order whose publisher accepts everything. */
  predicate Succeeding(rounds: seq<Round>, rows: map<Id, Row>, b: Backoff) {
    && (forall i :: 0 <= i < |rounds| ==> RoundSucceeds(rounds[i], rows, b))
    && (forall i, k :: 0 <= i < k < |rounds| ==> rounds[i].now <= rounds[k].now)
  }

  /** Due whatever delay is sampled. */
  predicate SurelyDue(c: Claim, now: Time, b: Backoff) {
    Eligible(c, now, Ceiling(b, c.retryCount))
  }

  /** No row is claimed, and every candidate is surely due. */
  predicate Settled(rows: map<Id, Row>, config: Config, now: Time) {
    && (forall id :: id in rows ==> rows[id].status != Processing)
    && (forall id :: id in rows && Candidate(rows[id], config.maxRetries) ==>
          SurelyDue(ClaimOf(rows, id), now, config.backoff))
  }

  /** The writes in the table are past, and every claim in it is a stale one. */
  predicate Quiet(rows: map<Id, Row>, fetchedAt: Time) {
    forall id :: id in rows ==>
      && rows[id].updatedAt <= fetchedAt
      && (rows[id].status == Processing ==> rows[id].updatedAt < fetchedAt - MINUTE)
  }

  /** Nothing but publishing has happened to the rows since start. */
  predicate OnlyPublished(start: map<Id, Row>, rows: map<Id, Row>, maxRetries: nat) {
    && rows.Keys == start.Keys
    && forall id :: id in rows ==>
         || rows[id] == start[id]
         || (Candidate(start[id], maxRetries)
             && rows[id] == start[id].(status := Published, updatedAt := rows[id].updatedAt))
  }

  lemma SettledNotRequeued(rows: map<Id, Row>, config: Config, now: Time, fetchedAt: Time)
    requires Settled(rows, config, now)
    ensures Requeued(rows, fetchedAt) == rows
  {
  }

  lemma StaysSettled(rows: map<Id, Row>, config: Config, now: Time, sent: seq<Id>, at: Time)
    requires Settled(rows, config, now)
    ensures forall later :: later >= now ==> Settled(PublishedAt(rows, sent, at), config, later)
  {
  }

  lemma {:induction false} NoneHeld(claims: seq<Claim>, now: Time, o: Outside)
    ensures Held(claims, now, o) == 0 <==>
            forall i :: 0 <= i < |claims| ==> Eligible(claims[i], now, DelayOf(o, claims[i]))
  {
    if claims != [] {
      hide Eligible, DelayOf;
      var n := |claims| - 1;
      NoneHeld(claims[..n], now, o);
      assert forall i :: 0 <= i < n ==> claims[..n][i] == claims[i];
    }
  }

  lemma SettledHoldsNone(rows: map<Id, Row>, config: Config, picked: seq<Id>, round: Round)
    requires Settled(rows, config, round.now)
    requires RoundSucceeds(round, rows, config.backoff)
    requires IsPick(rows, config.maxRetries, config.batch, {}, picked)
    ensures Held(ClaimsOf(rows, picked), round.now, round.o) == 0
  {
    hide Ceiling, Held, DelayOf;
    var claims := ClaimsOf(rows, picked);
    forall i | 0 <= i < |claims| ensures Eligible(claims[i], round.now, DelayOf(round.o, claims[i])) {
      var c := claims[i];
      assert c == ClaimOf(rows, picked[i]) && Candidate(rows[picked[i]], config.maxRetries);
    }
    NoneHeld(claims, round.now, round.o);
  }

  /** Neither requeueing nor publishing changes what delay may be sampled for a row. */
  lemma StillSucceeds(round: Round, start: map<Id, Row>, rows: map<Id, Row>, maxRetries: nat, b: Backoff)
    requires RoundSucceeds(round, start, b)
    ensures OnlyPublished(start, rows, maxRetries) ==> RoundSucceeds(round, rows, b)
    ensures forall at :: RoundSucceeds(round, Requeued(start, at), b)
  {
    hide Ceiling, DelayOf;
    SampledByCount(start, b, round.o);
  }

  lemma SampledByCount(rows: map<Id, Row>, b: Backoff, o: Outside)
    ensures forall id, row: Row :: id in rows && row.retryCount == rows[id].retryCount ==>
              Sampled(b, ClaimOf(rows, id), DelayOf(o, ClaimOf(rows, id)))
              == Sampled(b, Claim(id, row.status, row.retryCount, row.updatedAt),
                         DelayOf(o, Claim(id, row.status, row.retryCount, row.updatedAt)))
  {
    hide Ceiling;
  }

  lemma OnlyPublishedMore(start: map<Id, Row>, rows: map<Id, Row>, maxRetries: nat, sent: seq<Id>, now: Time)
    requires OnlyPublished(start, rows, maxRetries)
    requires forall id :: id in sent ==> id in rows && Candidate(rows[id], maxRetries)
    ensures OnlyPublished(start, PublishedAt(rows, sent, now), maxRetries)
  {
  }

  lemma PickedAreCandidates(rows: map<Id, Row>, maxRetries: nat, limit: nat, picked: seq<Id>)
    requires IsPick(rows, maxRetries, limit, {}, picked)
    ensures forall id :: id in picked ==> id in rows && Candidate(rows[id], maxRetries)
  {
  }

  /** One round: the events that are due are delivered, published, and taken out of what remains. */
  method DrainRound(relay: Relaying.Relay, round: Round, ghost start: map<Id, Row>)
    returns (ghost picked: seq<Id>, ghost sent: seq<Id>)
    requires RoundSucceeds(round, start, relay.config.backoff)
    requires OnlyPublished(start, Requeued(relay.repo.rows, round.fetchedAt), relay.config.maxRetries)
    modifies relay, relay.repo
    ensures relay.delivered == old(relay.delivered) + sent && Distinct(sent)
    ensures var rows, max := Requeued(old(relay.repo.rows), round.fetchedAt), relay.config.maxRetries;
            var left, left' := Remaining(rows, max), Remaining(relay.repo.rows, max);
            && IsPick(rows, max, relay.config.batch, {}, picked)
            && relay.repo.rows == PublishedAt(rows, sent, round.now)
            && OnlyPublished(start, relay.repo.rows, max)
            && SetOf(sent) <= left && left' == left - SetOf(sent)
            && |left'| == AfterBatch(|left|, relay.config.batch) + Held(ClaimsOf(rows, picked), round.now, round.o)
  {
    hide Candidate, Sampled, Remaining, PublishedAt, Requeued, AllHandled, Delivered, Claimed, Held, Distinct, SetOf,
         OnlyPublished, AfterBatch;
    ghost var rows, max := Requeued(relay.repo.rows, round.fetchedAt), relay.config.maxRetries;
    var processed, claims := relay.ProcessBatch(round.fetchedAt, round.now, round.o);
    picked := IdsOf(claims);
    sent := Delivered(claims, round.now, round.o);
    PickedAreCandidates(rows, max, relay.config.batch, picked);
    PickedAccepted(rows, start, max, picked, round, relay.config.backoff);
    BatchPublishes(rows, max, relay.config.batch, picked, round.fetchedAt, round.now, round.o);
    BatchDrains(rows, max, relay.config.batch, picked, sent, round.now);
    OnlyPublishedMore(start, rows, max, sent, round.now);
  }

  lemma PickedAccepted(
    rows: map<Id, Row>, start: map<Id, Row>, maxRetries: nat, picked: seq<Id>, round: Round, b: Backoff)
    requires RoundSucceeds(round, start, b) && OnlyPublished(start, rows, maxRetries)
    requires forall id :: id in picked ==> id in rows
    ensures forall k :: 0 <= k < |picked| ==> picked[k] in round.o.accepts
  {
    forall k | 0 <= k < |picked| ensures picked[k] in round.o.accepts {
      assert picked[k] in picked;
    }
  }

  /** Once every backoff is over no round holds anything back. */
  method DrainSettled(relay: Relaying.Relay, round: Round, ghost start: map<Id, Row>) returns (ghost sent: seq<Id>)
    requires RoundSucceeds(round, start, relay.config.backoff)
    requires OnlyPublished(start, relay.repo.rows, relay.config.maxRetries)
    requires Settled(relay.repo.rows, relay.config, round.now)
    modifies relay, relay.repo
    ensures relay.delivered == old(relay.delivered) + sent && Distinct(sent)
    ensures OnlyPublished(start, relay.repo.rows, relay.config.maxRetries)
    ensures forall later :: later >= round.now ==> Settled(relay.repo.rows, relay.config, later)
    ensures var left := Remaining(old(relay.repo.rows), relay.config.maxRetries);
            var left' := Remaining(relay.repo.rows, relay.config.maxRetries);
            && SetOf(sent) <= left && left' == left - SetOf(sent)
            && |left'| == AfterBatch(|left|, relay.config.batch)
  {
    hide Candidate, Sampled, Remaining, Requeued, IsPick, ClaimsOf, Distinct, SetOf, Settled, RoundSucceeds,
         OnlyPublished, PublishedAt, AfterBatch, Held;
    ghost var rows, max := relay.repo.rows, relay.config.maxRetries;
    SettledNotRequeued(rows, relay.config, round.now, round.fetchedAt);
    var picked, more := DrainRound(relay, round, start);
    sent := more;
    PickedExist(rows, max, relay.config.batch, picked);
    StillSucceeds(round, start, rows, max, relay.config.backoff);
    SettledHoldsNone(rows, relay.config, picked, round);
    StaysSettled(rows, relay.config, round.now, sent, round.now);
  }

  /** With a succeeding publisher and no new events: of the n rows that are candidates after the first fetch has
      put stale claims back, each round publishes the batch size or what is left, save that the first lets go the
      events whose backoff still runs. The second round must find every backoff over. Each event delivered is
      delivered once and ends published, and no other row changes. */
  method Drain(relay: Relaying.Relay, rounds: seq<Round>) returns (ghost first: seq<Id>, ghost sent: seq<Id>)
    requires Succeeding(rounds, relay.repo.rows, relay.config.backoff)
    requires |rounds| > 1 ==>
               Settled(Requeued(relay.repo.rows, rounds[0].fetchedAt), relay.config, rounds[1].now)
    modifies relay, relay.repo
    ensures relay.delivered == old(relay.delivered) + sent && Distinct(sent)
    ensures rounds == [] ==> relay.repo.rows == old(relay.repo.rows) && sent == []
    ensures rounds != [] ==>
              var before, after := Requeued(old(relay.repo.rows), rounds[0].fetchedAt), relay.repo.rows;
              var max, batch := relay.config.maxRetries, relay.config.batch;
              && IsPick(before, max, batch, {}, first)
              && OnlyPublished(before, after, max)
              && |Remaining(after, max)|
                 == LeftAfter(|Remaining(before, max)|, batch,
                              Held(ClaimsOf(before, first), rounds[0].now, rounds[0].o), |rounds|)
              && SetOf(sent) == Remaining(before, max) - Remaining(after, max)
              && forall id :: id in sent ==> id in after && after[id].status == Published
  {
    assert Distinct([]);
    hide Candidate, Sampled, Remaining, Requeued, IsPick, ClaimsOf, Distinct, SetOf, Settled, Succeeding,
         RoundSucceeds, OnlyPublished, PublishedAt, AfterBatch, Held;
    first, sent := [], [];
    if rounds == [] { return; }
    ghost var max, batch := relay.config.maxRetries, relay.config.batch;
    ghost var start := Requeued(relay.repo.rows, rounds[0].fetchedAt);
    RoundsInOrder(rounds, relay.repo.rows, max, relay.config.backoff);
    first, sent := DrainRound(relay, rounds[0], start);
    if |rounds| > 1 { StaysSettled(start, relay.config, rounds[1].now, sent, rounds[0].now); }
    PickedExist(start, max, batch, first);
    ghost var held := Held(ClaimsOf(start, first), rounds[0].now, rounds[0].o);
    for i := 1 to |rounds|
      invariant relay.delivered == old(relay.delivered) + sent && Distinct(sent)
      invariant OnlyPublished(start, relay.repo.rows, max)
      invariant i < |rounds| ==> Settled(relay.repo.rows, relay.config, rounds[i].now)
      invariant |Remaining(relay.repo.rows, max)| == LeftAfter(|Remaining(start, max)|, batch, held, i)
      invariant SetOf(sent) == Remaining(start, max) - Remaining(relay.repo.rows, max)
      invariant Remaining(relay.repo.rows, max) <= Remaining(start, max)
    {
      ghost var left := Remaining(relay.repo.rows, max);
      var more := DrainSettled(relay, rounds[i], start);
      SentGrows(Remaining(start, max), left, sent, more);
      assert old(relay.delivered) + (sent + more) == old(relay.delivered) + sent + more;
      sent := sent + more;
    }
    SentArePublished(start, relay.repo.rows, max, sent);
  }

  /** A caller's way to meet what Drain asks of the second round: let the longest backoff since the first fetch pass,
      when that fetch found no claim younger than a minute. */
  lemma SpacedRounds(rounds: seq<Round>, rows: map<Id, Row>, config: Config)
    requires ValidBackoff(config.backoff) && |rounds| > 1 && Quiet(rows, rounds[0].fetchedAt)
    requires rounds[1].now >= rounds[0].fetchedAt + config.backoff.max
    ensures Settled(Requeued(rows, rounds[0].fetchedAt), config, rounds[1].now)
  {
    hide Ceiling;
    forall n: nat ensures Ceiling(config.backoff, n) <= config.backoff.max {
      CeilingGrows(config.backoff, n);
    }
  }

  lemma RoundsInOrder(rounds: seq<Round>, rows: map<Id, Row>, maxRetries: nat, b: Backoff)
    requires rounds != [] && Succeeding(rounds, rows, b)
    ensures var start := Requeued(rows, rounds[0].fetchedAt);
            && OnlyPublished(start, start, maxRetries)
            && forall i :: 0 <= i < |rounds| ==> RoundSucceeds(rounds[i], start, b)
    ensures forall i :: 0 <= i < |rounds| - 1 ==> rounds[i].now <= rounds[i + 1].now
  {
    hide RoundSucceeds;
    forall i | 0 <= i < |rounds| ensures RoundSucceeds(rounds[i], Requeued(rows, rounds[0].fetchedAt), b) {
      StillSucceeds(rounds[i], rows, rows, maxRetries, b);
    }
  }

  lemma AppendDistinct(ids: seq<Id>, picked: seq<Id>)
    requires Distinct(ids) && Distinct(picked) && SetOf(ids) !! SetOf(picked)
    ensures Distinct(ids + picked) && SetOf(ids + picked) == SetOf(ids) + SetOf(picked)
  {
    var all := ids + picked;
    forall i | 0 <= i < |ids| ensures ids[i] in SetOf(ids) && all[i] in SetOf(all) { }
    forall i | 0 <= i < |picked| ensures picked[i] in SetOf(picked) && picked[i] in SetOf(all) {
      assert all[|ids| + i] == picked[i];
    }
    assert forall i :: |ids| <= i < |all| ==> all[i] == picked[i - |ids|];
  }

  lemma SentGrows(start: set<Id>, left: set<Id>, sent: seq<Id>, more: seq<Id>)
    requires Distinct(sent) && Distinct(more) && left <= start
    requires SetOf(sent) == start - left && SetOf(more) <= left
    ensures Distinct(sent + more) && SetOf(sent + more) == start - (left - SetOf(more))
  {
    hide Distinct, SetOf;
    AppendDistinct(sent, more);
  }

  lemma SentArePublished(start: map<Id, Row>, rows: map<Id, Row>, max: nat, sent: seq<Id>)
    requires OnlyPublished(start, rows, max) && SetOf(sent) == Remaining(start, max) - Remaining(rows, max)
    ensures forall id :: id in sent ==> id in rows && rows[id].status == Published
  {
    forall id | id in sent ensures id in rows && rows[id].status == Published {
      var i :| 0 <= i < |sent| && sent[i] == id;
      assert sent[i] in SetOf(sent);
    }
  }

  // ---------------------------------------------------------------- how many rounds are enough

  /** Rows still to be published after some rounds, the first of which let go held events. */
  function LeftAfter(n: nat, batch: nat, held: nat, rounds: nat): nat {
    if rounds == 0 then n
    else if rounds == 1 then AfterBatch(n, batch) + held
    else AfterBatch(LeftAfter(n, batch, held, rounds - 1), batch)
  }

  /** The least number of batches that hold n events. */
  function Ceil(n: nat, batch: nat): nat
    requires batch > 0
  {
    (n + batch - 1) / batch
  }

  /** The places that ceil(n / batch) rounds leave unused. A single round cannot use its own again. */
  function Spare(n: nat, batch: nat): nat
    requires batch > 0
  {
    if n <= batch then 0 else Ceil(n, batch) * batch - n
  }

  lemma CeilBounds(n: nat, batch: nat)
    requires batch > 0
    ensures n <= Ceil(n, batch) * batch < n + batch
  {
  }

  lemma {:induction false} LeftAfterIs(n: nat, batch: nat, held: nat, rounds: nat)
    requires batch > 0 && rounds > 0
    ensures var first := AfterBatch(n, batch) + held;
            LeftAfter(n, batch, held, rounds) ==
            if (rounds - 1) * batch >= first then 0 else first - (rounds - 1) * batch
  {
    if rounds > 1 {
      LeftAfterIs(n, batch, held, rounds - 1);
      assert (rounds - 1) * batch == (rounds - 2) * batch + batch;
    }
  }

  /** ceil(n / batch) rounds are enough if and only if the events held back fit into the places left over;
      otherwise it takes exactly one round more. */
  lemma RoundsNeeded(n: nat, batch: nat, held: nat, rounds: nat)
    requires batch > 0 && held <= n && held <= batch
    ensures LeftAfter(n, batch, held, rounds) == 0 <==>
            rounds >= Ceil(n, batch) + if held <= Spare(n, batch) then 0 else 1
  {
    CeilBounds(n, batch);
    if rounds > 0 {
      hide Ceil;
      LeftAfterIs(n, batch, held, rounds);
      var k := Ceil(n, batch);
      Order(k, 1, batch);
      Order(k, 2, batch);
      if n <= batch {
        Order(rounds, 2, batch);
      } else {
        Enough(n, batch, held, rounds, k);
        assert rounds * batch == (rounds - 1) * batch + batch;
      }
    }
  }

  lemma Enough(n: nat, batch: nat, held: nat, rounds: nat, k: nat)
    requires batch > 0 && held <= batch && n <= k * batch < n + batch
    ensures rounds * batch >= n + held <==> rounds >= k + if held <= k * batch - n then 0 else 1
  {
    Order(rounds, k, batch);
    Order(rounds, k + 1, batch);
    assert (k + 1) * batch == k * batch + batch;
  }

  lemma Order(a: int, b: int, d: nat)
    requires d > 0
    ensures a >= b ==> a * d >= b * d
    ensures a < b ==> a * d + d <= b * d
  {
    if a < b { assert (a + 1) * d <= b * d; }
  }

  // ---------------------------------------------------------------- whom the first round lets go

  /** How many events of a batch an unlucky sample lets go. */
  function AtRisk(claims: seq<Claim>, now: Time, b: Backoff): (n: nat)
    ensures n <= |claims|
  {
    if claims == [] then 0
    else AtRisk(claims[..|claims| - 1], now, b) + if SurelyDue(claims[|claims| - 1], now, b) then 0 else 1
  }

  lemma {:induction false} HeldAtMost(claims: seq<Claim>, now: Time, b: Backoff, o: Outside)
    requires SampledAll(b, claims, o)
    ensures Held(claims, now, o) <= AtRisk(claims, now, b)
  {
    if claims != [] {
      hide Ceiling, DelayOf;
      var n := |claims| - 1;
      assert forall i :: 0 <= i < n ==> claims[..n][i] == claims[i];
      HeldAtMost(claims[..n], now, b, o);
    }
  }

  /** Every delay at its ceiling. */
  function Worst(rows: map<Id, Row>, b: Backoff): Outside {
    Outside(map id | id in rows :: Ceiling(b, rows[id].retryCount), rows.Keys)
  }

  lemma {:induction false} WorstHolds(rows: map<Id, Row>, claims: seq<Claim>, now: Time, b: Backoff)
    requires forall i :: 0 <= i < |claims| ==>
               claims[i].id in rows && claims[i].retryCount == rows[claims[i].id].retryCount
    ensures Held(claims, now, Worst(rows, b)) == AtRisk(claims, now, b)
  {
    if claims != [] {
      hide Ceiling, Eligible;
      WorstHolds(rows, claims[..|claims| - 1], now, b);
    }
  }

  lemma WorstIsSampled(rows: map<Id, Row>, picked: seq<Id>, b: Backoff)
    requires ValidBackoff(b) && forall i :: 0 <= i < |picked| ==> picked[i] in rows
    ensures SampledAll(b, ClaimsOf(rows, picked), Worst(rows, b))
  {
    hide Ceiling;
    forall n: nat ensures Ceiling(b, n) >= 0 {
      CeilingGrows(b, n);
    }
  }

  /** Whatever is sampled, ceil(n / batch) rounds are enough: if and only if the events of the first batch that
      are not surely due fit into the places left over. */
  lemma AlwaysEnoughIff(rows: map<Id, Row>, config: Config, picked: seq<Id>, now: Time)
    requires ValidBackoff(config.backoff) && config.batch > 0
    requires IsPick(rows, config.maxRetries, config.batch, {}, picked)
    ensures var claims, n, batch := ClaimsOf(rows, picked), |Remaining(rows, config.maxRetries)|, config.batch;
            (forall o :: SampledAll(config.backoff, claims, o) ==>
               LeftAfter(n, batch, Held(claims, now, o), Ceil(n, batch)) == 0)
            <==> AtRisk(claims, now, config.backoff) <= Spare(n, batch)
  {
    hide SampledAll, Held, AtRisk, Worst, IsPick, LeftAfter, Ceil, Spare, Remaining;
    PickedExist(rows, config.maxRetries, config.batch, picked);
    PickCount(rows, config.maxRetries, config.batch, picked);
    var claims, n, batch := ClaimsOf(rows, picked), |Remaining(rows, config.maxRetries)|, config.batch;
    WorstIsSampled(rows, picked, config.backoff);
    WorstHolds(rows, claims, now, config.backoff);
    RoundsNeeded(n, batch, AtRisk(claims, now, config.backoff), Ceil(n, batch));
    forall o | SampledAll(config.backoff, claims, o)
      ensures AtRisk(claims, now, config.backoff) <= Spare(n, batch) ==>
                LeftAfter(n, batch, Held(claims, now, o), Ceil(n, batch)) == 0
    {
      HeldAtMost(claims, now, config.backoff, o);
      RoundsNeeded(n, batch, Held(claims, now, o), Ceil(n, batch));
    }
  }

  /** When the backoff of every failed row is over, the events at risk are the stale claims with a recorded
      failure whose new backoff, begun by the fetch, is not. */
  lemma AtRiskIff(rows: map<Id, Row>, config: Config, fetchedAt: Time, now: Time, picked: seq<Id>, i: nat)
    requires IsPick(Requeued(rows, fetchedAt), config.maxRetries, config.batch, {}, picked) && i < |picked|
    requires forall id :: id in rows && rows[id].status == Failed ==> SurelyDue(ClaimOf(rows, id), now, config.backoff)
    ensures var row := rows[picked[i]];
            !SurelyDue(ClaimOf(Requeued(rows, fetchedAt), picked[i]), now, config.backoff) <==>
            row.status == Processing && row.retryCount > 0
            && now < fetchedAt + Ceiling(config.backoff, row.retryCount)
  {
    hide Ceiling;
    assert Candidate(Requeued(rows, fetchedAt)[picked[i]], config.maxRetries);
  }

  /** One stale claim with one recorded failure: the only round that ceil(n / batch) allows delivers nothing, and
      the event waits from then on as if it had just failed. */
  lemma StaleClaimWaits(id: Id)
    ensures var b := Backoff(1000, 1000, 2.0);
            var now := MINUTE + 5000;
            var rows := map[id := Row(Processing, 1, 0, 0)];
            var requeued := Requeued(rows, now);
            var claims := ClaimsOf(requeued, [id]);
            var o := Outside(map[id := 1000], {id});
            && Quiet(rows, now) && ValidBackoff(b) && RoundSucceeds(Round(now, now, o), rows, b)
            && IsPick(requeued, 3, 1, {}, [id]) && |Remaining(requeued, 3)| == 1
            && Delivered(claims, now, o) == []
            && AllHandled(Claimed(requeued, [id], now), claims, now, o) == map[id := Row(Failed, 1, 0, now)]
            && LeftAfter(1, 1, Held(claims, now, o), Ceil(1, 1)) == 1
  {
    var b := Backoff(1000, 1000, 2.0);
    var now := MINUTE + 5000;
    var requeued := Requeued(map[id := Row(Processing, 1, 0, 0)], now);
    assert requeued == map[id := Row(Failed, 1, 0, now)];
    assert Power(2.0, 0) == 1.0;
    assert Uncapped(b, 0) == 1000;
    assert Remaining(requeued, 3) == {id};
    var claim := Claim(id, Failed, 1, now);
    assert ClaimsOf(requeued, [id]) == [claim];
    assert [claim][..0] == [];
    assert Claimed(requeued, [id], now) == map[id := Row(Processing, 1, 0, now)];
  }
}
