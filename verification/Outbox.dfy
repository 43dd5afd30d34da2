/** Several relays sharing one outbox table through timed claims. A claim lasts one minute; what a relay
    writes after that may meet another relay's claim. */
module Outbox {
  import opened Prelude

  const MINUTE: Time := 60_000_000_000

  datatype Status = Pending | Processing | Published | Failed

  datatype Row = Row(status: Status, retryCount: nat, createdAt: Time, updatedAt: Time)

  /** An event as a relay received it: the row before it was claimed. */
  datatype Claim = Claim(id: Id, status: Status, retryCount: nat, updatedAt: Time)

  datatype Backoff = Backoff(initial: Time, max: Time, multiplier: real)

  predicate ValidBackoff(b: Backoff) {
    b.initial > 0 && b.max > 0 && b.multiplier > 1.0
  }

  function Power(x: real, n: nat): real {
    if n == 0 then 1.0 else x * Power(x, n - 1)
  }

  /** The longest delay before the next attempt: exponential in the number of failures, never above max. */
  function Ceiling(b: Backoff, retryCount: nat): Time {
    if retryCount == 0 then 0
    else
      var delay := Uncapped(b, retryCount - 1);
      if delay > b.max || delay <= 0 then b.max else delay
  }

  lemma ScaleGrows(x: real, y: real, z: real)
    requires x >= 0.0 && y <= z
    ensures x * y <= x * z
  {
  }

  lemma {:induction false} PowerGrows(x: real, n: nat)
    requires x > 1.0
    ensures 1.0 <= Power(x, n) <= Power(x, n + 1)
  {
    if n > 0 { PowerGrows(x, n - 1); }
    var p := Power(x, n);
    assert Power(x, n + 1) == x * p;
    ScaleGrows(p, 1.0, x);
  }

  /** The delay before it is capped. */
  function Uncapped(b: Backoff, n: nat): Time {
    (b.initial as real * Power(b.multiplier, n)).Floor
  }

  lemma UncappedGrows(b: Backoff, n: nat)
    requires ValidBackoff(b)
    ensures b.initial <= Uncapped(b, n) <= Uncapped(b, n + 1)
  {
    PowerGrows(b.multiplier, n);
    var x := b.initial as real;
    ScaleGrows(x, 1.0, Power(b.multiplier, n));
    ScaleGrows(x, Power(b.multiplier, n), Power(b.multiplier, n + 1));
  }

  /** More failures never shorten the ceiling, and it stays within (0, max]. */
  lemma CeilingGrows(b: Backoff, n: nat)
    requires ValidBackoff(b)
    ensures 0 <= Ceiling(b, n) <= Ceiling(b, n + 1) <= b.max
    ensures Ceiling(b, n + 1) > 0
  {
    hide Uncapped, Power;
    UncappedGrows(b, n);
    if n > 0 { UncappedGrows(b, n - 1); }
  }

  /** The wait after some failures: the initial one, multiplied once for each failure after the first. */
  function Wait(b: Backoff, failures: nat): real
    requires failures > 0
  {
    if failures == 1 then b.initial as real else b.multiplier * Wait(b, failures - 1)
  }

  lemma {:induction false} WaitIsPower(b: Backoff, n: nat)
    ensures Wait(b, n + 1) == b.initial as real * Power(b.multiplier, n)
  {
    if n > 0 {
      WaitIsPower(b, n - 1);
      var x, m, p := b.initial as real, b.multiplier, Power(b.multiplier, n - 1);
      assert m * (x * p) == x * (m * p);
    }
  }

  /** The ceiling is that wait in whole nanoseconds, or the cap where that is less; an event that never failed does not
      wait. */
  lemma CeilingIsCappedWait(b: Backoff, failures: nat)
    requires ValidBackoff(b)
    ensures failures == 0 ==> Ceiling(b, failures) == 0
    ensures failures > 0 ==>
              var wait := Wait(b, failures).Floor;
              Ceiling(b, failures) == if wait <= b.max then wait else b.max
  {
    if failures > 0 {
      WaitIsPower(b, failures - 1);
      UncappedGrows(b, failures - 1);
    }
  }

  /** Whether a relay processes an event now, delay being the sampled backoff. */
  predicate Eligible(c: Claim, now: Time, delay: Time) {
    c.status == Pending || c.retryCount == 0 || now >= c.updatedAt + delay
  }

  predicate Sampled(b: Backoff, c: Claim, delay: Time) {
    0 <= delay <= Ceiling(b, c.retryCount)
  }

  // ---------------------------------------------------------------- table writes

  /** A claim untouched for more than a minute goes back to failed. */
  function Requeue(row: Row, now: Time): Row {
    if row.status == Processing && row.updatedAt < now - MINUTE then row.(status := Failed, updatedAt := now) else row
  }

  function Requeued(rows: map<Id, Row>, now: Time): map<Id, Row> {
    map id | id in rows :: Requeue(rows[id], now)
  }

  predicate Candidate(row: Row, maxRetries: nat) {
    (row.status == Pending || row.status == Failed) && row.retryCount < maxRetries
  }

  /** A result of the fetch query: the oldest candidates that nobody else has locked, up to the limit. */
  predicate IsPick(rows: map<Id, Row>, maxRetries: nat, limit: nat, locked: set<Id>, picked: seq<Id>) {
    && |picked| <= limit
    && Distinct(picked)
    && (forall i :: 0 <= i < |picked| ==>
          picked[i] in rows && picked[i] !in locked && Candidate(rows[picked[i]], maxRetries))
    && (forall i, k :: 0 <= i < k < |picked| ==> rows[picked[i]].createdAt <= rows[picked[k]].createdAt)
    && (forall id :: id in rows && id !in locked && Candidate(rows[id], maxRetries) && id !in picked ==>
          && |picked| == limit
          && forall i :: 0 <= i < |picked| ==> rows[picked[i]].createdAt <= rows[id].createdAt)
  }

  function Claimed(rows: map<Id, Row>, picked: seq<Id>, now: Time): map<Id, Row> {
    map id | id in rows :: if id in picked then rows[id].(status := Processing, updatedAt := now) else rows[id]
  }

  function ClaimOf(rows: map<Id, Row>, id: Id): Claim
    requires id in rows
  {
    Claim(id, rows[id].status, rows[id].retryCount, rows[id].updatedAt)
  }

  function ClaimsOf(rows: map<Id, Row>, picked: seq<Id>): (claims: seq<Claim>)
    requires forall i :: 0 <= i < |picked| ==> picked[i] in rows
    ensures |claims| == |picked|
  {
    seq(|picked|, i requires 0 <= i < |picked| => ClaimOf(rows, picked[i]))
  }

  function ClaimReleased(rows: map<Id, Row>, id: Id, updatedAt: Time): map<Id, Row> {
    if id in rows && rows[id].status == Processing then rows[id := rows[id].(status := Failed, updatedAt := updatedAt)]
    else rows
  }

  /** Neither mark looks at the status it overwrites. */
  function MarkedPublished(rows: map<Id, Row>, id: Id, at: Time): map<Id, Row> {
    if id in rows then rows[id := rows[id].(status := Published, updatedAt := at)] else rows
  }

  function MarkedFailed(rows: map<Id, Row>, id: Id, at: Time): map<Id, Row> {
    if id in rows
    then rows[id := rows[id].(status := Failed, retryCount := rows[id].retryCount + 1, updatedAt := at)]
    else rows
  }

  // ---------------------------------------------------------------- the machine

  /** A relay works through todo; started is its clock reading for the batch, and outcome what the publisher
      answered for the first event while that is not yet written. */
  datatype Relay = Relay(claimedAt: Time, started: Time, todo: seq<Claim>, outcome: Option<bool>)

  datatype Config = Config(maxRetries: nat, batch: nat, backoff: Backoff)

  /** successes and failures count what the publisher answered; lostSuccesses and lostFailures count the
      answers whose relay died, or could not write, before recording them. */
  datatype System = System(
    config: Config, rows: map<Id, Row>, relays: seq<Relay>, now: Time,
    successes: multiset<Id>, failures: multiset<Id>, lostSuccesses: multiset<Id>, lostFailures: multiset<Id>)

  datatype Move =
    | Fetch(relay: nat, locked: set<Id>, picked: seq<Id>)
    | Begin(relay: nat)
    | Skip(relay: nat, delay: Time, written: bool)
    | Publish(relay: nat, delay: Time, ok: bool)
    | Mark(relay: nat, written: bool)
    | Crash(relay: nat)
    | Tick(elapsed: nat)
    | Append(id: Id)

  function SetRelay(sys: System, r: nat, relay: Relay): System
    requires r < |sys.relays|
  {
    sys.(relays := sys.relays[r := relay])
  }

  function Idle(relay: Relay): Relay {
    relay.(todo := [], outcome := None)
  }

  function Drop(relay: Relay): Relay
    requires relay.todo != []
  {
    relay.(todo := relay.todo[1..], outcome := None)
  }

  /** Requeue stale claims, pick, and mark the picked rows as claimed, in one database transaction. */
  function FetchStep(sys: System, r: nat, locked: set<Id>, picked: seq<Id>): System
    requires r < |sys.relays|
  {
    var rows := Requeued(sys.rows, sys.now);
    if sys.relays[r].todo != [] || !IsPick(rows, sys.config.maxRetries, sys.config.batch, locked, picked) then sys
    else
      SetRelay(sys, r, Relay(sys.now, sys.now, ClaimsOf(rows, picked), None))
      .(rows := Claimed(rows, picked, sys.now))
  }

  function SkipStep(sys: System, r: nat, delay: Time, written: bool): System
    requires r < |sys.relays| && sys.relays[r].todo != []
  {
    var relay := sys.relays[r];
    var c := relay.todo[0];
    if relay.outcome.Some? || !Sampled(sys.config.backoff, c, delay) || Eligible(c, relay.started, delay) then sys
    else
      SetRelay(sys, r, Drop(relay))
      .(rows := if written then ClaimReleased(sys.rows, c.id, c.updatedAt) else sys.rows)
  }

  function PublishStep(sys: System, r: nat, delay: Time, ok: bool): System
    requires r < |sys.relays| && sys.relays[r].todo != []
  {
    var relay := sys.relays[r];
    var c := relay.todo[0];
    if relay.outcome.Some? || !Sampled(sys.config.backoff, c, delay) || !Eligible(c, relay.started, delay) then sys
    else
      SetRelay(sys, r, relay.(outcome := Some(ok)))
      .(successes := if ok then sys.successes + multiset{c.id} else sys.successes,
        failures := if ok then sys.failures else sys.failures + multiset{c.id})
  }

  function Lost(sys: System, relay: Relay): System {
    if relay.todo == [] || relay.outcome == None then sys
    else if relay.outcome.value then sys.(lostSuccesses := sys.lostSuccesses + multiset{relay.todo[0].id})
    else sys.(lostFailures := sys.lostFailures + multiset{relay.todo[0].id})
  }

  /** Write the publisher's answer, stamped with the batch's own clock reading. */
  function MarkStep(sys: System, r: nat, written: bool): System
    requires r < |sys.relays| && sys.relays[r].todo != []
  {
    var relay := sys.relays[r];
    var c := relay.todo[0];
    if relay.outcome == None then sys
    else if !written then Lost(SetRelay(sys, r, Drop(relay)), relay)
    else
      SetRelay(sys, r, Drop(relay))
      .(rows := if relay.outcome.value then MarkedPublished(sys.rows, c.id, relay.started)
                else MarkedFailed(sys.rows, c.id, relay.started))
  }

  function Step(sys: System, m: Move): System {
    match m
    case Fetch(r, locked, picked) => if r < |sys.relays| then FetchStep(sys, r, locked, picked) else sys
    case Begin(r) =>
      if r < |sys.relays| && sys.relays[r].outcome == None
      then SetRelay(sys, r, sys.relays[r].(started := sys.now)) else sys
    case Skip(r, delay, written) =>
      if r < |sys.relays| && sys.relays[r].todo != [] then SkipStep(sys, r, delay, written) else sys
    case Publish(r, delay, ok) =>
      if r < |sys.relays| && sys.relays[r].todo != [] then PublishStep(sys, r, delay, ok) else sys
    case Mark(r, written) =>
      if r < |sys.relays| && sys.relays[r].todo != [] then MarkStep(sys, r, written) else sys
    case Crash(r) =>
      if r < |sys.relays| then Lost(SetRelay(sys, r, Idle(sys.relays[r])), sys.relays[r]) else sys
    case Tick(elapsed) => sys.(now := sys.now + elapsed)
    case Append(id) => if id in sys.rows then sys else sys.(rows := sys.rows[id := Row(Pending, 0, sys.now, sys.now)])
  }

  function Run(sys: System, moves: seq<Move>): System {
    if moves == [] then sys else Step(Run(sys, moves[..|moves| - 1]), moves[|moves| - 1])
  }

  lemma Extend(sys: System, moves: seq<Move>, m: Move)
    ensures Run(sys, moves + [m]) == Step(Run(sys, moves), m)
  {
    hide Step;
    assert (moves + [m])[..|moves + [m]| - 1] == moves;
  }

  lemma {:induction false} RunConcat(sys: System, moves: seq<Move>, more: seq<Move>)
    ensures Run(sys, moves + more) == Run(Run(sys, moves), more)
  {
    hide Step;
    if more == [] {
      assert moves + more == moves;
    } else {
      RunConcat(sys, moves, more[..|more| - 1]);
      assert (moves + more)[..|moves + more| - 1] == moves + more[..|more| - 1];
    }
  }

  lemma RunOne(sys: System, m: Move)
    ensures Run(sys, [m]) == Step(sys, m)
  {
    hide Step;
    Extend(sys, [], m);
    assert [] + [m] == [m];
  }

  lemma RunTwo(sys: System, m: Move, n: Move)
    ensures Run(sys, [m, n]) == Step(Step(sys, m), n)
  {
    hide Step;
    Extend(sys, [], m);
    Extend(sys, [m], n);
    assert [] + [m] == [m] && [m] + [n] == [m, n];
  }

  lemma RunThree(sys: System, m: Move, n: Move, o: Move)
    ensures Run(sys, [m, n, o]) == Step(Step(Step(sys, m), n), o)
  {
    hide Step;
    RunTwo(sys, m, n);
    Extend(sys, [m, n], o);
    assert [m, n] + [o] == [m, n, o];
  }

  /** No outstanding claim is older than a minute. */
  predicate Timely(sys: System) {
    forall r :: 0 <= r < |sys.relays| && sys.relays[r].todo != [] ==> sys.now - sys.relays[r].claimedAt <= MINUTE
  }

  /** Whenever somebody fetches, no outstanding claim is older than a minute. */
  ghost predicate TimelyRun(sys: System, moves: seq<Move>) {
    forall k :: 0 <= k < |moves| ==> TimelyAt(sys, moves, k)
  }

  ghost predicate TimelyAt(sys: System, moves: seq<Move>, k: nat)
    requires k < |moves|
  {
    moves[k].Fetch? ==> Timely(Run(sys, moves[..k]))
  }

  predicate Initial(sys: System) {
    && (forall r :: 0 <= r < |sys.relays| ==> sys.relays[r].todo == [] && sys.relays[r].outcome == None)
    && (forall id :: id in sys.rows ==> sys.rows[id].status == Pending && sys.rows[id].retryCount == 0)
    && sys.successes == sys.failures == sys.lostSuccesses == sys.lostFailures == multiset{}
    && sys.config.maxRetries > 0
  }
}
