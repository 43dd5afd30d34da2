/** The relay's batch loop over the outbox table, alone: what one batch writes, and that it is a run of the
    shared machine. */
module Relaying {
  import opened Prelude
  import opened Outbox

  function IdsOf(claims: seq<Claim>): (ids: seq<Id>)
    ensures |ids| == |claims|
    ensures forall i :: 0 <= i < |claims| ==> ids[i] == claims[i].id
  {
    seq(|claims|, i requires 0 <= i < |claims| => claims[i].id)
  }

  class OutboxRepository {
    var rows: map<Id, Row>

    constructor (rows: map<Id, Row>)
      ensures this.rows == rows
    {
      this.rows := rows;
    }

    method RequeueStale(now: Time)
      modifies this
      ensures rows == Requeued(old(rows), now)
      ensures rows.Keys == old(rows).Keys
      ensures forall id :: id in rows ==>
                var row := old(rows)[id];
                rows[id] == if row.status == Processing && now - row.updatedAt > 60_000_000_000
                            then Row(Failed, row.retryCount, row.createdAt, now) else row
    {
      var rest := rows.Keys;
      while rest != {}
        invariant rows.Keys == old(rows).Keys && rest <= rows.Keys
        invariant forall id :: id in rows ==>
                    rows[id] == if id in rest then old(rows)[id] else Requeue(old(rows)[id], now)
        decreases rest
      {
        var id :| id in rest;
        if rows[id].status == Processing && rows[id].updatedAt < now - MINUTE {
          rows := rows[id := rows[id].(status := Failed, updatedAt := now)];
        }
        rest := rest - {id};
      }
    }

    /** The oldest row of a non-empty set. */
    method Oldest(ids: set<Id>) returns (oldest: Id)
      requires ids != {} && ids <= rows.Keys
      ensures oldest in ids && forall id :: id in ids ==> rows[oldest].createdAt <= rows[id].createdAt
    {
      oldest :| oldest in ids;
      var rest := ids - {oldest};
      while rest != {}
        invariant rest <= ids && oldest in ids
        invariant forall id :: id in ids - rest ==> rows[oldest].createdAt <= rows[id].createdAt
        decreases rest
      {
        var id :| id in rest;
        if rows[id].createdAt < rows[oldest].createdAt { oldest := id; }
        rest := rest - {id};
      }
    }

    /** The fetch query, with no row locked by anybody else. */
    method PickOldest(maxRetries: nat, limit: nat) returns (picked: seq<Id>)
      ensures IsPick(rows, maxRetries, limit, {}, picked)
    {
      picked := [];
      var rest := set id | id in rows && Candidate(rows[id], maxRetries);
      while rest != {} && |picked| < limit
        invariant rest <= rows.Keys && |picked| <= limit
        invariant Distinct(picked)
        invariant forall id :: id in rest <==> id in rows && Candidate(rows[id], maxRetries) && id !in picked
        invariant forall i :: 0 <= i < |picked| ==> picked[i] in rows && Candidate(rows[picked[i]], maxRetries)
        invariant forall i, k :: 0 <= i < k < |picked| ==> rows[picked[i]].createdAt <= rows[picked[k]].createdAt
        invariant forall i, id :: 0 <= i < |picked| && id in rest ==> rows[picked[i]].createdAt <= rows[id].createdAt
        decreases rest
      {
        var id := Oldest(rest);
        picked, rest := picked + [id], rest - {id};
      }
    }

    /** Requeue, select, and claim row by row. The events returned are the rows before the claim. */
    method FetchPending(maxRetries: nat, limit: nat, now: Time) returns (claims: seq<Claim>)
      modifies this
      ensures var requeued, picked := Requeued(old(rows), now), IdsOf(claims);
              && IsPick(requeued, maxRetries, limit, {}, picked)
              && claims == ClaimsOf(requeued, picked)
              && rows == Claimed(requeued, picked, now)
      ensures var requeued, picked := Requeued(old(rows), now), IdsOf(claims);
              && (forall i, k :: 0 <= i < k < |picked| ==>
                    requeued[picked[i]].createdAt <= requeued[picked[k]].createdAt)
              && forall id :: id in requeued && id !in picked && Candidate(requeued[id], maxRetries) ==>
                   |picked| == limit && forall i :: 0 <= i < |picked| ==>
                     requeued[picked[i]].createdAt <= requeued[id].createdAt
    {
      RequeueStale(now);
      ghost var requeued := rows;
      var picked := PickOldest(maxRetries, limit);
      claims := ClaimsOf(rows, picked);
      assert IdsOf(claims) == picked;
      for i := 0 to |picked|
        invariant rows == Claimed(requeued, picked[..i], now)
      {
        assert picked[..i + 1] == picked[..i] + [picked[i]];
        rows := rows[picked[i] := rows[picked[i]].(status := Processing, updatedAt := now)];
      }
      assert picked[..|picked|] == picked;
    }

    method ReleaseClaim(id: Id, updatedAt: Time)
      modifies this
      ensures rows == ClaimReleased(old(rows), id, updatedAt)
    {
      if id in rows && rows[id].status == Processing {
        rows := rows[id := rows[id].(status := Failed, updatedAt := updatedAt)];
      }
    }

    method MarkPublished(id: Id, processedAt: Time)
      modifies this
      ensures rows == MarkedPublished(old(rows), id, processedAt)
    {
      if id in rows { rows := rows[id := rows[id].(status := Published, updatedAt := processedAt)]; }
    }

    method MarkFailed(id: Id, updatedAt: Time)
      modifies this
      ensures rows == MarkedFailed(old(rows), id, updatedAt)
    {
      if id in rows {
        rows := rows[id := rows[id].(status := Failed, retryCount := rows[id].retryCount + 1, updatedAt := updatedAt)];
      }
    }
  }

  /** What the outside decides in one batch: the sampled delays and the publisher's answers. */
  datatype Outside = Outside(delays: map<Id, Time>, accepts: set<Id>)

  function DelayOf(o: Outside, c: Claim): Time {
    if c.id in o.delays then o.delays[c.id] else 0
  }

  /** One event of a batch: let go while its backoff runs, else publish it and record the answer. */
  function Handled(rows: map<Id, Row>, c: Claim, now: Time, o: Outside): map<Id, Row> {
    if !Eligible(c, now, DelayOf(o, c)) then ClaimReleased(rows, c.id, c.updatedAt)
    else if c.id in o.accepts then MarkedPublished(rows, c.id, now)
    else MarkedFailed(rows, c.id, now)
  }

  function AllHandled(rows: map<Id, Row>, claims: seq<Claim>, now: Time, o: Outside): map<Id, Row> {
    if claims == [] then rows
    else Handled(AllHandled(rows, claims[..|claims| - 1], now, o), claims[|claims| - 1], now, o)
  }

  predicate Accepted(c: Claim, now: Time, o: Outside) {
    Eligible(c, now, DelayOf(o, c)) && c.id in o.accepts
  }

  /** The events the publisher accepted, in batch order. */
  function Delivered(claims: seq<Claim>, now: Time, o: Outside): seq<Id> {
    if claims == [] then []
    else
      Delivered(claims[..|claims| - 1], now, o) +
      if Accepted(claims[|claims| - 1], now, o) then [claims[|claims| - 1].id] else []
  }

  /** The row is due now, with the delay sampled for it. */
  predicate Due(id: Id, row: Row, now: Time, o: Outside) {
    row.status == Pending || row.retryCount == 0
    || now >= row.updatedAt + if id in o.delays then o.delays[id] else 0
  }

  /** What a batch makes of a row that it picked. */
  function Treated(id: Id, row: Row, now: Time, o: Outside): Row {
    if !Due(id, row, now, o) then Row(Failed, row.retryCount, row.createdAt, row.updatedAt)
    else if id in o.accepts then Row(Published, row.retryCount, row.createdAt, now)
    else Row(Failed, row.retryCount + 1, row.createdAt, now)
  }

  /** Row by row: an event that is due is published or has one more failure, stamped with the batch's clock; one that
      is not keeps its stamp; and no row that was not picked changes. */
  predicate Treats(rows: map<Id, Row>, picked: seq<Id>, now: Time, o: Outside, rows': map<Id, Row>) {
    && rows'.Keys == rows.Keys
    && forall id :: id in rows ==> rows'[id] == if id in picked then Treated(id, rows[id], now, o) else rows[id]
  }

  /** The same in the middle of a batch. */
  predicate TreatsSome(
    rows: map<Id, Row>, picked: seq<Id>, i: nat, fetchedAt: Time, now: Time, o: Outside, rows': map<Id, Row>)
    requires i <= |picked|
  {
    && rows'.Keys == rows.Keys
    && forall id :: id in rows ==>
         rows'[id] == if id in picked[..i] then Treated(id, rows[id], now, o)
                      else if id in picked[i..] then rows[id].(status := Processing, updatedAt := fetchedAt)
                      else rows[id]
  }

  lemma TreatsOneMore(
    rows: map<Id, Row>, picked: seq<Id>, i: nat, fetchedAt: Time, now: Time, o: Outside, rows': map<Id, Row>)
    requires i < |picked| && Distinct(picked) && TreatsSome(rows, picked, i, fetchedAt, now, o, rows')
    requires picked[i] in rows
    ensures TreatsSome(rows, picked, i + 1, fetchedAt, now, o, Handled(rows', ClaimOf(rows, picked[i]), now, o))
  {
    var id := picked[i];
    assert picked[i..] == [id] + picked[i + 1..] && picked[..i + 1] == picked[..i] + [id];
    assert id !in picked[i + 1..] && id !in picked[..i];
    assert rows'[id] == rows[id].(status := Processing, updatedAt := fetchedAt);
  }

  lemma {:induction false} BatchTreatsSome(
    rows: map<Id, Row>, maxRetries: nat, limit: nat, picked: seq<Id>, fetchedAt: Time, now: Time, o: Outside, i: nat)
    requires IsPick(rows, maxRetries, limit, {}, picked) && i <= |picked|
    ensures TreatsSome(rows, picked, i, fetchedAt, now, o,
                       AllHandled(Claimed(rows, picked, fetchedAt), ClaimsOf(rows, picked)[..i], now, o))
  {
    if i == 0 {
      assert picked[0..] == picked;
    } else {
      hide TreatsSome, Handled, Claimed;
      var claims := ClaimsOf(rows, picked);
      BatchTreatsSome(rows, maxRetries, limit, picked, fetchedAt, now, o, i - 1);
      assert claims[..i][..i - 1] == claims[..i - 1];
      TreatsOneMore(rows, picked, i - 1, fetchedAt, now, o,
                    AllHandled(Claimed(rows, picked, fetchedAt), claims[..i - 1], now, o));
    }
  }

  lemma {:induction false} BatchTreats(
    rows: map<Id, Row>, maxRetries: nat, limit: nat, picked: seq<Id>, fetchedAt: Time, now: Time, o: Outside)
    requires IsPick(rows, maxRetries, limit, {}, picked)
    ensures Treats(rows, picked, now, o,
                   AllHandled(Claimed(rows, picked, fetchedAt), ClaimsOf(rows, picked), now, o))
  {
    hide IsPick, AllHandled, Claimed;
    PickedExist(rows, maxRetries, limit, picked);
    BatchTreatsSome(rows, maxRetries, limit, picked, fetchedAt, now, o, |picked|);
    assert ClaimsOf(rows, picked)[..|picked|] == ClaimsOf(rows, picked);
    assert picked[..|picked|] == picked && picked[|picked|..] == [];
  }

  /** The publisher accepted each event that was due and that it accepts, once. */
  ghost predicate Sends(rows: map<Id, Row>, picked: seq<Id>, now: Time, o: Outside, sent: seq<Id>) {
    && Distinct(sent)
    && forall id :: id in sent <==> id in picked && id in rows && Due(id, rows[id], now, o) && id in o.accepts
  }

  lemma {:induction false} BatchSends(
    rows: map<Id, Row>, maxRetries: nat, limit: nat, picked: seq<Id>, now: Time, o: Outside, i: nat)
    requires IsPick(rows, maxRetries, limit, {}, picked) && i <= |picked|
    ensures Sends(rows, picked[..i], now, o, Delivered(ClaimsOf(rows, picked)[..i], now, o))
  {
    if i > 0 {
      var claims := ClaimsOf(rows, picked);
      BatchSends(rows, maxRetries, limit, picked, now, o, i - 1);
      assert claims[..i][..i - 1] == claims[..i - 1];
      assert picked[..i] == picked[..i - 1] + [picked[i - 1]];
      assert picked[i - 1] !in picked[..i - 1];
    }
  }

  lemma BatchDone(
    rows: map<Id, Row>, maxRetries: nat, limit: nat, claims: seq<Claim>, fetchedAt: Time, now: Time, o: Outside)
    requires IsPick(rows, maxRetries, limit, {}, IdsOf(claims)) && claims == ClaimsOf(rows, IdsOf(claims))
    ensures Treats(rows, IdsOf(claims), now, o, AllHandled(Claimed(rows, IdsOf(claims), fetchedAt), claims, now, o))
    ensures Sends(rows, IdsOf(claims), now, o, Delivered(claims, now, o))
  {
    hide IsPick, Treats, Sends, Claimed;
    var picked := IdsOf(claims);
    BatchTreats(rows, maxRetries, limit, picked, fetchedAt, now, o);
    BatchSends(rows, maxRetries, limit, picked, now, o, |picked|);
    assert picked[..|picked|] == picked && claims[..|claims|] == claims;
  }

  lemma NothingHandled(rows: map<Id, Row>, now: Time, o: Outside)
    ensures AllHandled(rows, [], now, o) == rows && Delivered([], now, o) == []
  {
  }

  lemma HandledNext(rows: map<Id, Row>, claims: seq<Claim>, i: nat, now: Time, o: Outside)
    requires i < |claims|
    ensures AllHandled(rows, claims[..i + 1], now, o) ==
            Handled(AllHandled(rows, claims[..i], now, o), claims[i], now, o)
    ensures Delivered(claims[..i + 1], now, o) ==
            Delivered(claims[..i], now, o) + if Accepted(claims[i], now, o) then [claims[i].id] else []
  {
    hide Handled, Accepted;
    assert claims[..i + 1][..i] == claims[..i];
  }

  /** A batch that a publish failed in is followed by its backoff: whoever receives the row unchanged is to try it
      exactly when the delay sampled then has passed since the failing batch read its clock. */
  lemma {:induction false} RetriedIffBackoffOver(
    rows: map<Id, Row>, picked: seq<Id>, now: Time, o: Outside, rows': map<Id, Row>, id: Id, later: Time, delay: Time)
    requires Treats(rows, picked, now, o, rows') && id in rows && id in picked
    requires Due(id, rows[id], now, o) && id !in o.accepts
    ensures rows'[id].status == Failed && rows'[id].retryCount == rows[id].retryCount + 1
    ensures forall at :: Requeued(rows', at)[id] == rows'[id]
    ensures Eligible(ClaimOf(rows', id), later, delay) <==> later >= now + delay
  {
  }

  class Relay {
    const repo: OutboxRepository
    const config: Config
    /** What reached the publisher and was accepted. */
    var delivered: seq<Id>

    constructor (repo: OutboxRepository, config: Config)
      ensures this.repo == repo && this.config == config && delivered == []
    {
      this.repo, this.config, delivered := repo, config, [];
    }

    method ProcessEvent(c: Claim, now: Time, o: Outside) returns (ok: bool)
      modifies this, repo
      ensures ok <==> c.id in o.accepts
      ensures repo.rows ==
              if ok then MarkedPublished(old(repo.rows), c.id, now) else MarkedFailed(old(repo.rows), c.id, now)
      ensures delivered == old(delivered) + if ok then [c.id] else []
    {
      if c.id !in o.accepts {
        repo.MarkFailed(c.id, now);
        return false;
      }
      delivered := delivered + [c.id];
      repo.MarkPublished(c.id, now);
      return true;
    }

    /** The number returned counts the events published and recorded. */
    method ProcessBatch(fetchedAt: Time, now: Time, o: Outside) returns (processed: nat, ghost claims: seq<Claim>)
      modifies this, repo
      ensures var requeued, picked := Requeued(old(repo.rows), fetchedAt), IdsOf(claims);
              && IsPick(requeued, config.maxRetries, config.batch, {}, picked)
              && claims == ClaimsOf(requeued, picked)
              && repo.rows == AllHandled(Claimed(requeued, picked, fetchedAt), claims, now, o)
      ensures Treats(Requeued(old(repo.rows), fetchedAt), IdsOf(claims), now, o, repo.rows)
      ensures delivered == old(delivered) + Delivered(claims, now, o) && processed == |Delivered(claims, now, o)|
      ensures Sends(Requeued(old(repo.rows), fetchedAt), IdsOf(claims), now, o, Delivered(claims, now, o))
    {
      hide AllHandled, Delivered, IsPick, Treats, Sends, Requeued, Claimed, ClaimsOf, IdsOf, Eligible,
           MarkedPublished, MarkedFailed, ClaimReleased;
      var events := repo.FetchPending(config.maxRetries, config.batch, fetchedAt);
      claims := events;
      ghost var claimed := repo.rows;
      processed := 0;
      NothingHandled(claimed, now, o);
      assert events[..0] == [];
      for i := 0 to |events|
        invariant repo.rows == AllHandled(claimed, events[..i], now, o)
        invariant delivered == old(delivered) + Delivered(events[..i], now, o)
        invariant processed == |Delivered(events[..i], now, o)|
      {
        HandledNext(claimed, events, i, now, o);
        if !Eligible(events[i], now, DelayOf(o, events[i])) {
          repo.ReleaseClaim(events[i].id, events[i].updatedAt);
        } else {
          var ok := ProcessEvent(events[i], now, o);
          if ok { processed := processed + 1; }
        }
      }
      assert events[..|events|] == events;
      BatchDone(Requeued(old(repo.rows), fetchedAt), config.maxRetries, config.batch, claims, fetchedAt, now, o);
    }
  }

  // ---------------------------------------------------------------- a batch is a run of the shared machine

  predicate Ready(sys: System, r: nat, now: Time) {
    r < |sys.relays| && sys.relays[r].outcome == None && sys.relays[r].started == now
  }

  predicate SampledAll(b: Backoff, claims: seq<Claim>, o: Outside) {
    forall i :: 0 <= i < |claims| ==> Sampled(b, claims[i], DelayOf(o, claims[i]))
  }

  lemma PublishThenMark(sys: System, r: nat, now: Time, delay: Time, ok: bool)
    requires Ready(sys, r, now) && sys.relays[r].todo != []
    requires Sampled(sys.config.backoff, sys.relays[r].todo[0], delay) && Eligible(sys.relays[r].todo[0], now, delay)
    ensures var c := sys.relays[r].todo[0];
            var end := Step(Step(sys, Publish(r, delay, ok)), Mark(r, true));
            && end.rows == (if ok then MarkedPublished(sys.rows, c.id, now) else MarkedFailed(sys.rows, c.id, now))
            && end.relays == sys.relays[r := Drop(sys.relays[r])]
            && end.config == sys.config && end.now == sys.now
  {
    hide Sampled, Eligible, MarkedPublished, MarkedFailed;
    var answered := sys.relays[r].(outcome := Some(ok));
    assert Step(sys, Publish(r, delay, ok)).relays == sys.relays[r := answered];
    assert sys.relays[r := answered][r := Drop(answered)] == sys.relays[r := Drop(sys.relays[r])];
  }

  /** Handling one event is one or two moves of its relay, and touches no other relay. */
  lemma EventIsMoves(sys: System, r: nat, now: Time, o: Outside) returns (moves: seq<Move>)
    requires Ready(sys, r, now) && sys.relays[r].todo != []
    requires Sampled(sys.config.backoff, sys.relays[r].todo[0], DelayOf(o, sys.relays[r].todo[0]))
    ensures var c := sys.relays[r].todo[0];
            var end := Run(sys, moves);
            && end.rows == Handled(sys.rows, c, now, o)
            && end.relays == sys.relays[r := Drop(sys.relays[r])]
            && end.config == sys.config && end.now == sys.now
  {
    hide Sampled, Eligible, MarkedPublished, MarkedFailed, ClaimReleased, Run;
    var c := sys.relays[r].todo[0];
    var delay := DelayOf(o, c);
    if !Eligible(c, now, delay) {
      RunOne(sys, Skip(r, delay, true));
      moves := [Skip(r, delay, true)];
    } else {
      hide Step;
      var ok := c.id in o.accepts;
      PublishThenMark(sys, r, now, delay, ok);
      RunTwo(sys, Publish(r, delay, ok), Mark(r, true));
      moves := [Publish(r, delay, ok), Mark(r, true)];
    }
  }

  lemma {:induction false} EventsAreMoves(sys: System, r: nat, now: Time, o: Outside, i: nat) returns (moves: seq<Move>)
    requires Ready(sys, r, now) && i <= |sys.relays[r].todo|
    requires SampledAll(sys.config.backoff, sys.relays[r].todo, o)
    ensures var relay := sys.relays[r];
            var end := Run(sys, moves);
            && end.rows == AllHandled(sys.rows, relay.todo[..i], now, o)
            && |end.relays| == |sys.relays| && Ready(end, r, now)
            && end.relays[r].todo == relay.todo[i..]
            && end.config == sys.config && end.now == sys.now
  {
    hide Step, Handled, Sampled;
    if i == 0 {
      moves := [];
    } else {
      var todo := sys.relays[r].todo;
      var before := EventsAreMoves(sys, r, now, o, i - 1);
      var mid := Run(sys, before);
      assert mid.relays[r].todo[0] == todo[i - 1];
      var more := EventIsMoves(mid, r, now, o);
      RunConcat(sys, before, more);
      moves := before + more;
      assert todo[..i][..i - 1] == todo[..i - 1];
      assert mid.relays[r].todo[1..] == todo[i..];
    }
  }

  /** Fetching, and reading the clock for the batch some time later. */
  lemma StartIsMoves(sys: System, r: nat, elapsed: nat, picked: seq<Id>)
    requires r < |sys.relays| && sys.relays[r].todo == [] && sys.relays[r].outcome == None
    requires IsPick(Requeued(sys.rows, sys.now), sys.config.maxRetries, sys.config.batch, {}, picked)
    ensures var requeued := Requeued(sys.rows, sys.now);
            var begun := Run(sys, [Fetch(r, {}, picked), Tick(elapsed), Begin(r)]);
            && begun.rows == Claimed(requeued, picked, sys.now)
            && Ready(begun, r, sys.now + elapsed) && begun.relays[r].todo == ClaimsOf(requeued, picked)
            && begun.config == sys.config && begun.now == sys.now + elapsed
  {
    hide IsPick, Requeued, Claimed, Run;
    var requeued := Requeued(sys.rows, sys.now);
    PickedExist(requeued, sys.config.maxRetries, sys.config.batch, picked);
    RunThree(sys, Fetch(r, {}, picked), Tick(elapsed), Begin(r));
  }

  /** A batch of a relay that runs alone is a run of the shared machine: what is proved there of every run holds
      of batches in any mixture. */
  lemma {:induction false} BatchIsRun(sys: System, r: nat, elapsed: nat, o: Outside, picked: seq<Id>)
    returns (moves: seq<Move>)
    requires r < |sys.relays| && sys.relays[r].todo == [] && sys.relays[r].outcome == None
    requires IsPick(Requeued(sys.rows, sys.now), sys.config.maxRetries, sys.config.batch, {}, picked)
    requires SampledAll(sys.config.backoff, ClaimsOf(Requeued(sys.rows, sys.now), picked), o)
    ensures var requeued := Requeued(sys.rows, sys.now);
            var end := Run(sys, moves);
            && end.rows == AllHandled(Claimed(requeued, picked, sys.now), ClaimsOf(requeued, picked),
                                      sys.now + elapsed, o)
            && r < |end.relays| && end.relays[r].todo == [] && end.now == sys.now + elapsed
  {
    hide IsPick, Requeued, Claimed, Sampled, Handled, Step, Run, AllHandled;
    var requeued := Requeued(sys.rows, sys.now);
    PickedExist(requeued, sys.config.maxRetries, sys.config.batch, picked);
    var claims := ClaimsOf(requeued, picked);
    var start := [Fetch(r, {}, picked), Tick(elapsed), Begin(r)];
    StartIsMoves(sys, r, elapsed, picked);
    var rest := EventsAreMoves(Run(sys, start), r, sys.now + elapsed, o, |claims|);
    assert claims[..|claims|] == claims;
    moves := start + rest;
    RunConcat(sys, start, rest);
  }

  lemma PickedExist(rows: map<Id, Row>, maxRetries: nat, limit: nat, picked: seq<Id>)
    requires IsPick(rows, maxRetries, limit, {}, picked)
    ensures forall i :: 0 <= i < |picked| ==> picked[i] in rows
  {
  }
}
