/** While every outcome is written within the minute, a claim is a lease: one holder per event, nothing
    published is ever touched again, and the retry count counts failures. */
module Leases {
  import opened Prelude
  import opened Outbox

  function Ids(relay: Relay): set<Id> {
    set i | 0 <= i < |relay.todo| :: relay.todo[i].id
  }

  predicate DistinctClaims(relay: Relay) {
    forall i, k :: 0 <= i < k < |relay.todo| ==> relay.todo[i].id != relay.todo[k].id
  }

  /** The rows of a relay's outstanding claims are still as it left them. */
  predicate Holding(rows: map<Id, Row>, maxRetries: nat, c: Claim, claimedAt: Time) {
    && c.id in rows
    && rows[c.id].status == Processing
    && rows[c.id].updatedAt == claimedAt
    && rows[c.id].retryCount == c.retryCount < maxRetries
    && c.updatedAt <= claimedAt
  }

  predicate RelayInv(rows: map<Id, Row>, maxRetries: nat, now: Time, relay: Relay) {
    && relay.claimedAt <= relay.started <= now
    && (relay.outcome.Some? ==> relay.todo != [])
    && DistinctClaims(relay)
    && forall i :: 0 <= i < |relay.todo| ==> Holding(rows, maxRetries, relay.todo[i], relay.claimedAt)
  }

  predicate Exclusive(relays: seq<Relay>) {
    forall r, q :: 0 <= r < q < |relays| ==> Ids(relays[r]) !! Ids(relays[q])
  }

  /** Relays that have an answer for the event which is not written yet. */
  function InFlight(relays: seq<Relay>, ok: bool, id: Id): nat {
    if relays == [] then 0
    else InFlight(relays[..|relays| - 1], ok, id) + Answered(relays[|relays| - 1], ok, id)
  }

  function Answered(relay: Relay, ok: bool, id: Id): nat {
    if relay.todo != [] && relay.outcome == Some(ok) && relay.todo[0].id == id then 1 else 0
  }

  function IsPublished(rows: map<Id, Row>, id: Id): nat {
    if id in rows && rows[id].status == Published then 1 else 0
  }

  function Retries(rows: map<Id, Row>, id: Id): nat {
    if id in rows then rows[id].retryCount else 0
  }

  /** Every answer of the publisher is written in the row, waiting to be written, or lost with its relay. */
  predicate Accounted(sys: System, id: Id) {
    && sys.successes[id] == IsPublished(sys.rows, id) + InFlight(sys.relays, true, id) + sys.lostSuccesses[id]
    && sys.failures[id] == Retries(sys.rows, id) + InFlight(sys.relays, false, id) + sys.lostFailures[id]
  }

  predicate RowInv(row: Row, maxRetries: nat, now: Time) {
    row.retryCount <= maxRetries && row.updatedAt <= now
  }

  ghost predicate LeaseInv(sys: System) {
    && (forall r :: 0 <= r < |sys.relays| ==> RelayInv(sys.rows, sys.config.maxRetries, sys.now, sys.relays[r]))
    && Exclusive(sys.relays)
    && (forall id :: Accounted(sys, id))
    && (forall id :: id in sys.rows ==> RowInv(sys.rows[id], sys.config.maxRetries, sys.now))
  }

  // ---------------------------------------------------------------- frames

  lemma {:induction false} InFlightUpdate(relays: seq<Relay>, r: nat, relay: Relay, ok: bool, id: Id)
    requires r < |relays|
    ensures InFlight(relays[r := relay], ok, id) ==
            InFlight(relays, ok, id) - Answered(relays[r], ok, id) + Answered(relay, ok, id)
  {
    var n := |relays| - 1;
    if r == n {
      assert relays[r := relay][..n] == relays[..n];
    } else {
      assert relays[r := relay][..n] == relays[..n][r := relay];
      InFlightUpdate(relays[..n], r, relay, ok, id);
    }
  }

  lemma HeldElsewhere(relays: seq<Relay>, r: nat, q: nat)
    requires Exclusive(relays) && r < |relays| && q < |relays| && r != q
    ensures Ids(relays[r]) !! Ids(relays[q])
  {
  }

  /** Replacing a relay by one that holds no more keeps claims exclusive. */
  lemma ExclusiveShrinks(relays: seq<Relay>, r: nat, relay: Relay)
    requires Exclusive(relays) && r < |relays| && Ids(relay) <= Ids(relays[r])
    ensures Exclusive(relays[r := relay])
  {
    hide Ids;
  }

  /** A write to one row is no concern of a relay that does not hold it. */
  lemma UntouchedRelay(rows: map<Id, Row>, rows': map<Id, Row>, maxRetries: nat, now: Time, relay: Relay, id: Id)
    requires RelayInv(rows, maxRetries, now, relay) && id !in Ids(relay)
    requires forall k :: k in rows && k != id ==> k in rows' && rows'[k] == rows[k]
    ensures RelayInv(rows', maxRetries, now, relay)
  {
    forall i | 0 <= i < |relay.todo| ensures Holding(rows', maxRetries, relay.todo[i], relay.claimedAt) {
      assert relay.todo[i].id in Ids(relay);
    }
  }

  lemma HeadHeld(relay: Relay)
    requires relay.todo != []
    ensures relay.todo[0].id in Ids(relay)
    ensures Ids(Drop(relay)) <= Ids(relay)
    ensures DistinctClaims(relay) ==> DistinctClaims(Drop(relay)) && relay.todo[0].id !in Ids(Drop(relay))
  {
    assert forall i :: 0 <= i < |Drop(relay).todo| ==> Drop(relay).todo[i] == relay.todo[i + 1];
  }

  lemma DropHolds(rows: map<Id, Row>, maxRetries: nat, now: Time, relay: Relay)
    requires RelayInv(rows, maxRetries, now, relay) && relay.todo != []
    ensures RelayInv(rows, maxRetries, now, Drop(relay))
  {
    HeadHeld(relay);
    assert forall i :: 0 <= i < |Drop(relay).todo| ==> Drop(relay).todo[i] == relay.todo[i + 1];
  }

  // ---------------------------------------------------------------- steps

  /** Finishing with the first event: its row changes as given, nothing else does. */
  lemma DropKeeps(sys: System, r: nat, rows: map<Id, Row>)
    requires LeaseInv(sys) && r < |sys.relays| && sys.relays[r].todo != []
    requires rows.Keys == sys.rows.Keys
    requires forall k :: k in rows && k != sys.relays[r].todo[0].id ==> rows[k] == sys.rows[k]
    ensures var relays := sys.relays[r := Drop(sys.relays[r])];
            && Exclusive(relays)
            && forall q :: 0 <= q < |relays| ==> RelayInv(rows, sys.config.maxRetries, sys.now, relays[q])
  {
    hide Accounted, RelayInv, Exclusive, Ids, Drop;
    var relay := sys.relays[r];
    var relays := sys.relays[r := Drop(relay)];
    var max, id := sys.config.maxRetries, relay.todo[0].id;
    assert DistinctClaims(relay) by { RelayIsDistinct(sys, r); }
    HeadHeld(relay);
    ExclusiveShrinks(sys.relays, r, Drop(relay));
    forall q | 0 <= q < |relays| ensures RelayInv(rows, max, sys.now, relays[q]) {
      if q == r {
        DropHolds(sys.rows, max, sys.now, relay);
      } else {
        HeldElsewhere(sys.relays, r, q);
      }
      UntouchedRelay(sys.rows, rows, max, sys.now, relays[q], id);
    }
  }

  lemma RelayIsDistinct(sys: System, r: nat)
    requires LeaseInv(sys) && r < |sys.relays|
    ensures DistinctClaims(sys.relays[r]) && sys.relays[r].claimedAt <= sys.relays[r].started <= sys.now
    ensures forall i :: 0 <= i < |sys.relays[r].todo| ==>
              Holding(sys.rows, sys.config.maxRetries, sys.relays[r].todo[i], sys.relays[r].claimedAt)
  {
    assert RelayInv(sys.rows, sys.config.maxRetries, sys.now, sys.relays[r]);
  }

  lemma SkipKeeps(sys: System, r: nat, delay: Time, written: bool)
    requires LeaseInv(sys) && r < |sys.relays| && sys.relays[r].todo != []
    ensures LeaseInv(SkipStep(sys, r, delay, written))
  {
    hide Exclusive, RelayInv, Eligible, Sampled, InFlight, Ids;
    var sys' := SkipStep(sys, r, delay, written);
    var relay := sys.relays[r];
    if sys' != sys {
      RelayIsDistinct(sys, r);
      DropKeeps(sys, r, sys'.rows);
      forall id ensures Accounted(sys', id) {
        assert Accounted(sys, id);
        InFlightUpdate(sys.relays, r, Drop(relay), true, id);
        InFlightUpdate(sys.relays, r, Drop(relay), false, id);
      }
    }
  }

  lemma PublishKeeps(sys: System, r: nat, delay: Time, ok: bool)
    requires LeaseInv(sys) && r < |sys.relays| && sys.relays[r].todo != []
    ensures LeaseInv(PublishStep(sys, r, delay, ok))
  {
    hide Exclusive, Eligible, Sampled, InFlight;
    var sys' := PublishStep(sys, r, delay, ok);
    var relay := sys.relays[r];
    if sys' != sys {
      var answered := relay.(outcome := Some(ok));
      assert Ids(answered) == Ids(relay);
      ExclusiveShrinks(sys.relays, r, answered);
      assert RelayInv(sys.rows, sys.config.maxRetries, sys.now, relay);
      forall id ensures Accounted(sys', id) {
        assert Accounted(sys, id);
        InFlightUpdate(sys.relays, r, answered, true, id);
        InFlightUpdate(sys.relays, r, answered, false, id);
      }
    }
  }

  lemma MarkKeeps(sys: System, r: nat, written: bool)
    requires LeaseInv(sys) && r < |sys.relays| && sys.relays[r].todo != []
    ensures LeaseInv(MarkStep(sys, r, written))
  {
    hide Exclusive, RelayInv, InFlight, Ids, DistinctClaims;
    var sys' := MarkStep(sys, r, written);
    var relay := sys.relays[r];
    if sys' != sys && relay.outcome.Some? {
      RelayIsDistinct(sys, r);
      DropKeeps(sys, r, sys'.rows);
      forall id ensures Accounted(sys', id) {
        assert Accounted(sys, id);
        InFlightUpdate(sys.relays, r, Drop(relay), true, id);
        InFlightUpdate(sys.relays, r, Drop(relay), false, id);
      }
    }
  }

  lemma CrashKeeps(sys: System, r: nat)
    requires LeaseInv(sys) && r < |sys.relays|
    ensures LeaseInv(Step(sys, Crash(r)))
  {
    hide Exclusive, InFlight;
    var relay := sys.relays[r];
    var sys' := Step(sys, Crash(r));
    assert Ids(Idle(relay)) == {};
    ExclusiveShrinks(sys.relays, r, Idle(relay));
    forall q | 0 <= q < |sys'.relays| ensures RelayInv(sys'.rows, sys.config.maxRetries, sys.now, sys'.relays[q]) {
      assert RelayInv(sys.rows, sys.config.maxRetries, sys.now, sys.relays[q]);
    }
    forall id ensures Accounted(sys', id) {
      assert Accounted(sys, id);
      InFlightUpdate(sys.relays, r, Idle(relay), true, id);
      InFlightUpdate(sys.relays, r, Idle(relay), false, id);
    }
  }

  /** Requeueing spares every claim that is at most a minute old. */
  lemma RequeueSpares(sys: System, q: nat)
    requires LeaseInv(sys) && Timely(sys) && q < |sys.relays|
    ensures RelayInv(Requeued(sys.rows, sys.now), sys.config.maxRetries, sys.now, sys.relays[q])
  {
    hide Accounted, Exclusive;
    var relay := sys.relays[q];
    assert RelayInv(sys.rows, sys.config.maxRetries, sys.now, relay);
  }

  lemma PickedAreFree(
    rows: map<Id, Row>, max: nat, now: Time, relay: Relay, limit: nat, locked: set<Id>, picked: seq<Id>)
    requires RelayInv(rows, max, now, relay) && IsPick(rows, max, limit, locked, picked)
    ensures forall i :: 0 <= i < |relay.todo| ==> relay.todo[i].id !in picked
    ensures RelayInv(Claimed(rows, picked, now), max, now, relay)
  {
    forall i | 0 <= i < |relay.todo| ensures relay.todo[i].id !in picked {
      assert Holding(rows, max, relay.todo[i], relay.claimedAt);
    }
  }

  lemma NewClaimsHeld(rows: map<Id, Row>, max: nat, now: Time, limit: nat, locked: set<Id>, picked: seq<Id>)
    requires IsPick(rows, max, limit, locked, picked)
    requires forall id :: id in rows ==> rows[id].updatedAt <= now
    ensures RelayInv(Claimed(rows, picked, now), max, now, Relay(now, now, ClaimsOf(rows, picked), None))
    ensures forall id :: id in Ids(Relay(now, now, ClaimsOf(rows, picked), None)) ==> id in picked
  {
    var claims := ClaimsOf(rows, picked);
    forall i | 0 <= i < |claims| ensures Holding(Claimed(rows, picked, now), max, claims[i], now) {
      assert picked[i] in picked;
    }
  }

  /** Fetching changes no row's answers: it moves rows in and out of processing only. */
  lemma FetchKeepsRows(sys: System, max: nat, limit: nat, locked: set<Id>, picked: seq<Id>, id: Id)
    requires IsPick(Requeued(sys.rows, sys.now), max, limit, locked, picked)
    ensures var rows := Claimed(Requeued(sys.rows, sys.now), picked, sys.now);
            && rows.Keys == sys.rows.Keys
            && IsPublished(rows, id) == IsPublished(sys.rows, id) && Retries(rows, id) == Retries(sys.rows, id)
            && (id in sys.rows && RowInv(sys.rows[id], max, sys.now) ==> RowInv(rows[id], max, sys.now))
  {
    var requeued := Requeued(sys.rows, sys.now);
    if id in picked {
      var i :| 0 <= i < |picked| && picked[i] == id;
      assert Candidate(requeued[id], max);
    }
  }

  lemma RequeuedInPast(sys: System)
    requires LeaseInv(sys)
    ensures forall id :: id in Requeued(sys.rows, sys.now) ==> Requeued(sys.rows, sys.now)[id].updatedAt <= sys.now
  {
    hide Accounted, Exclusive, RelayInv;
  }

  lemma FetchKeeps(sys: System, r: nat, locked: set<Id>, picked: seq<Id>)
    requires LeaseInv(sys) && Timely(sys) && r < |sys.relays|
    ensures LeaseInv(FetchStep(sys, r, locked, picked))
  {
    hide RelayInv, RowInv, IsPublished, Retries, Requeued, Claimed, Timely;
    var sys' := FetchStep(sys, r, locked, picked);
    if sys' != sys {
      var max, rows := sys.config.maxRetries, Requeued(sys.rows, sys.now);
      var relay := Relay(sys.now, sys.now, ClaimsOf(rows, picked), None);
      RequeuedInPast(sys);
      NewClaimsHeld(rows, max, sys.now, sys.config.batch, locked, picked);
      forall q | 0 <= q < |sys'.relays|
        ensures RelayInv(sys'.rows, max, sys.now, sys'.relays[q]) && (q != r ==> Ids(relay) !! Ids(sys.relays[q]))
      {
        RequeueSpares(sys, q);
        PickedAreFree(rows, max, sys.now, sys.relays[q], sys.config.batch, locked, picked);
      }
      forall id ensures Accounted(sys', id) {
        assert Accounted(sys, id);
        FetchKeepsRows(sys, max, sys.config.batch, locked, picked, id);
        InFlightUpdate(sys.relays, r, relay, true, id);
        InFlightUpdate(sys.relays, r, relay, false, id);
      }
      forall id | id in sys'.rows ensures RowInv(sys'.rows[id], max, sys.now) {
        FetchKeepsRows(sys, max, sys.config.batch, locked, picked, id);
      }
    }
  }

  lemma BeginKeeps(sys: System, r: nat)
    requires LeaseInv(sys) && r < |sys.relays|
    ensures LeaseInv(Step(sys, Begin(r)))
  {
    hide Exclusive;
    var sys' := Step(sys, Begin(r));
    var relay := sys.relays[r];
    if relay.outcome == None {
      var begun := relay.(started := sys.now);
      assert Ids(begun) == Ids(relay);
      ExclusiveShrinks(sys.relays, r, begun);
      assert RelayInv(sys.rows, sys.config.maxRetries, sys.now, relay);
      forall id ensures Accounted(sys', id) {
        assert Accounted(sys, id);
        InFlightUpdate(sys.relays, r, begun, true, id);
        InFlightUpdate(sys.relays, r, begun, false, id);
      }
    }
  }

  lemma AppendKeeps(sys: System, id: Id)
    requires LeaseInv(sys)
    ensures LeaseInv(Step(sys, Append(id)))
  {
    hide Exclusive;
    var sys' := Step(sys, Append(id));
    if id !in sys.rows {
      forall q | 0 <= q < |sys.relays| ensures RelayInv(sys'.rows, sys.config.maxRetries, sys.now, sys.relays[q]) {
        assert RelayInv(sys.rows, sys.config.maxRetries, sys.now, sys.relays[q]);
      }
      forall k ensures Accounted(sys', k) { assert Accounted(sys, k); }
    }
  }

  lemma TickKeeps(sys: System, elapsed: nat)
    requires LeaseInv(sys)
    ensures LeaseInv(Step(sys, Tick(elapsed)))
  {
    hide Exclusive;
    var sys' := Step(sys, Tick(elapsed));
    forall k ensures Accounted(sys', k) { assert Accounted(sys, k); }
    forall q | 0 <= q < |sys.relays| ensures RelayInv(sys'.rows, sys.config.maxRetries, sys'.now, sys.relays[q]) {
      assert RelayInv(sys.rows, sys.config.maxRetries, sys.now, sys.relays[q]);
    }
  }

  lemma StepKeeps(sys: System, m: Move)
    requires LeaseInv(sys) && (m.Fetch? ==> Timely(sys))
    ensures LeaseInv(Step(sys, m))
  {
    hide LeaseInv, Timely, FetchStep, SkipStep, PublishStep, MarkStep;
    match m {
      case Fetch(r, locked, picked) => if r < |sys.relays| { FetchKeeps(sys, r, locked, picked); }
      case Begin(r) => if r < |sys.relays| { BeginKeeps(sys, r); }
      case Skip(r, delay, written) =>
        if r < |sys.relays| && sys.relays[r].todo != [] { SkipKeeps(sys, r, delay, written); }
      case Publish(r, delay, ok) => if r < |sys.relays| && sys.relays[r].todo != [] { PublishKeeps(sys, r, delay, ok); }
      case Mark(r, written) => if r < |sys.relays| && sys.relays[r].todo != [] { MarkKeeps(sys, r, written); }
      case Crash(r) => if r < |sys.relays| { CrashKeeps(sys, r); }
      case Tick(elapsed) => TickKeeps(sys, elapsed);
      case Append(id) => AppendKeeps(sys, id);
    }
  }

  lemma {:induction false} NoAnswersYet(relays: seq<Relay>, ok: bool, id: Id)
    requires forall r :: 0 <= r < |relays| ==> relays[r].todo == []
    ensures InFlight(relays, ok, id) == 0
  {
    if relays != [] { NoAnswersYet(relays[..|relays| - 1], ok, id); }
  }

  lemma StartsLeased(sys: System)
    requires Fresh(sys)
    ensures LeaseInv(sys)
  {
    forall id ensures Accounted(sys, id) {
      NoAnswersYet(sys.relays, true, id);
      NoAnswersYet(sys.relays, false, id);
    }
  }

  /** Nothing is claimed or answered yet, and no stamp lies in the future. */
  predicate Fresh(sys: System) {
    && Initial(sys)
    && (forall r :: 0 <= r < |sys.relays| ==> sys.relays[r].claimedAt <= sys.relays[r].started <= sys.now)
    && (forall id :: id in sys.rows ==> sys.rows[id].updatedAt <= sys.now)
  }

  lemma TimelyPrefix(sys: System, moves: seq<Move>)
    requires TimelyRun(sys, moves) && moves != []
    ensures TimelyRun(sys, moves[..|moves| - 1])
    ensures moves[|moves| - 1].Fetch? ==> Timely(Run(sys, moves[..|moves| - 1]))
  {
    hide Timely, Run;
    var before := moves[..|moves| - 1];
    forall k | 0 <= k < |before| ensures TimelyAt(sys, before, k) {
      assert before[..k] == moves[..k];
      assert TimelyAt(sys, moves, k);
    }
    assert TimelyAt(sys, moves, |moves| - 1);
  }

  lemma {:induction false} RunKeeps(sys: System, moves: seq<Move>)
    requires Fresh(sys) && TimelyRun(sys, moves)
    ensures LeaseInv(Run(sys, moves)) && Run(sys, moves).config == sys.config
  {
    hide LeaseInv, TimelyRun, Timely, Step;
    if moves == [] {
      StartsLeased(sys);
    } else {
      TimelyPrefix(sys, moves);
      RunKeeps(sys, moves[..|moves| - 1]);
      StepKeeps(Run(sys, moves[..|moves| - 1]), moves[|moves| - 1]);
      StepKeepsConfig(Run(sys, moves[..|moves| - 1]), moves[|moves| - 1]);
    }
  }

  lemma StepKeepsConfig(sys: System, m: Move)
    ensures Step(sys, m).config == sys.config
  {
    hide IsPick, Eligible, Sampled, Requeued, Claimed;
  }

  // ---------------------------------------------------------------- main results

  /** Every claim that is a relay's is that relay's alone, and its row is as that relay left it. */
  lemma {:induction false} OneHolderPerEvent(sys: System, moves: seq<Move>, r: nat, q: nat, id: Id)
    requires Fresh(sys) && TimelyRun(sys, moves)
    requires r < |Run(sys, moves).relays| && q < |Run(sys, moves).relays|
    requires id in Ids(Run(sys, moves).relays[r]) && id in Ids(Run(sys, moves).relays[q])
    ensures r == q && id in Run(sys, moves).rows && Run(sys, moves).rows[id].status == Processing
  {
    hide TimelyRun, Run, Accounted;
    RunKeeps(sys, moves);
    var now := Run(sys, moves);
    assert RelayInv(now.rows, now.config.maxRetries, now.now, now.relays[r]);
  }

  /** The retry count of a row is the number of failed publishes, but for those whose relay is about to write
      the failure or could not, and it never exceeds the limit. A published row was published. */
  lemma {:induction false} RetriesCountFailures(sys: System, moves: seq<Move>, id: Id)
    requires Fresh(sys) && TimelyRun(sys, moves) && id in Run(sys, moves).rows
    ensures var end := Run(sys, moves);
            && end.rows[id].retryCount == end.failures[id] - InFlight(end.relays, false, id) - end.lostFailures[id]
            && end.rows[id].retryCount <= sys.config.maxRetries
            && (end.rows[id].status == Published ==> end.successes[id] > 0)
  {
    hide TimelyRun, Run, Exclusive, RelayInv, InFlight;
    RunKeeps(sys, moves);
    assert Accounted(Run(sys, moves), id);
  }

  /** With no answer lost, an event is published to the outside at most once. */
  lemma {:induction false} PublishedAtMostOnce(sys: System, moves: seq<Move>, id: Id)
    requires Fresh(sys) && TimelyRun(sys, moves) && Run(sys, moves).lostSuccesses[id] == 0
    ensures Run(sys, moves).successes[id] <= 1
  {
    hide TimelyRun, Run, RelayInv;
    RunKeeps(sys, moves);
    var end := Run(sys, moves);
    assert Accounted(end, id);
    AtMostOneInFlight(end.relays, id);
    if InFlight(end.relays, true, id) > 0 {
      var r := SomeInFlight(end.relays, id);
      assert RelayInv(end.rows, end.config.maxRetries, end.now, end.relays[r]);
      HeadIsProcessing(end, r);
    }
  }

  lemma HeadIsProcessing(sys: System, r: nat)
    requires LeaseInv(sys) && r < |sys.relays| && sys.relays[r].todo != []
    ensures IsPublished(sys.rows, sys.relays[r].todo[0].id) == 0
  {
    RelayIsDistinct(sys, r);
  }

  lemma {:induction false} AtMostOneInFlight(relays: seq<Relay>, id: Id)
    requires Exclusive(relays)
    ensures InFlight(relays, true, id) <= 1
  {
    if relays != [] {
      var n: nat := |relays| - 1;
      AtMostOneInFlight(relays[..n], id);
      if Answered(relays[n], true, id) == 1 && InFlight(relays[..n], true, id) > 0 {
        hide Exclusive, Ids;
        var r := SomeInFlight(relays[..n], id);
        HeadHeld(relays[n]);
        HeadHeld(relays[r]);
        HeldElsewhere(relays, r, n);
        assert false;
      }
    }
  }

  lemma {:induction false} SomeInFlight(relays: seq<Relay>, id: Id) returns (r: nat)
    requires InFlight(relays, true, id) > 0
    ensures r < |relays| && Answered(relays[r], true, id) == 1
  {
    var n := |relays| - 1;
    if Answered(relays[n], true, id) == 1 { r := n; } else { r := SomeInFlight(relays[..n], id); }
  }

  lemma StepKeepsPublished(sys: System, m: Move, id: Id)
    requires LeaseInv(sys) && id in sys.rows && sys.rows[id].status == Published
    ensures id in Step(sys, m).rows && Step(sys, m).rows[id] == sys.rows[id]
  {
    hide Exclusive, Accounted, RelayInv, Eligible, Sampled;
    match m {
      case Fetch(r, locked, picked) =>
      case Skip(r, _, _) => if r < |sys.relays| && sys.relays[r].todo != [] { RelayIsDistinct(sys, r); }
      case Mark(r, _) => if r < |sys.relays| && sys.relays[r].todo != [] { RelayIsDistinct(sys, r); }
      case _ =>
    }
  }

  /** Published is final: from the moment a row is published no relay changes it. */
  lemma {:induction false} PublishedIsFinal(sys: System, moves: seq<Move>, k: nat, id: Id)
    requires Fresh(sys) && TimelyRun(sys, moves) && k <= |moves|
    requires id in Run(sys, moves[..k]).rows && Run(sys, moves[..k]).rows[id].status == Published
    ensures id in Run(sys, moves).rows && Run(sys, moves).rows[id] == Run(sys, moves[..k]).rows[id]
  {
    hide TimelyRun, Timely, Step, LeaseInv, Fresh;
    if k == |moves| {
      assert moves[..k] == moves;
    } else {
      var before := moves[..|moves| - 1];
      assert before[..k] == moves[..k];
      TimelyPrefix(sys, moves);
      PublishedIsFinal(sys, before, k, id);
      RunKeeps(sys, before);
      StepKeepsPublished(Run(sys, before), moves[|moves| - 1], id);
    }
  }

  // ---------------------------------------------------------------- backoff

  /** What is left of a failure recorded with this stamp: no later stamp of the row, and of the row as any relay
      received it, is earlier, and nobody takes the event for a new one. */
  predicate FailedSince(sys: System, id: Id, at: Time) {
    && id in sys.rows && sys.rows[id].status != Pending && sys.rows[id].retryCount > 0 && sys.rows[id].updatedAt >= at
    && forall r :: 0 <= r < |sys.relays| ==> ClaimsSince(sys.relays[r], id, at)
  }

  predicate ClaimsSince(relay: Relay, id: Id, at: Time) {
    forall i :: 0 <= i < |relay.todo| && relay.todo[i].id == id ==>
      relay.todo[i].status == Failed && relay.todo[i].updatedAt >= at
  }

  lemma DropSince(relay: Relay, id: Id, at: Time)
    requires ClaimsSince(relay, id, at) && relay.todo != []
    ensures ClaimsSince(Drop(relay), id, at)
  {
    assert forall i :: 0 <= i < |Drop(relay).todo| ==> Drop(relay).todo[i] == relay.todo[i + 1];
  }

  lemma FetchSince(sys: System, r: nat, locked: set<Id>, picked: seq<Id>, id: Id, at: Time)
    requires LeaseInv(sys) && FailedSince(sys, id, at) && r < |sys.relays|
    ensures FailedSince(FetchStep(sys, r, locked, picked), id, at)
  {
    hide Exclusive, RelayInv, Accounted;
    var sys' := FetchStep(sys, r, locked, picked);
    if sys' != sys {
      var rows := Requeued(sys.rows, sys.now);
      assert RowInv(sys.rows[id], sys.config.maxRetries, sys.now);
      var claims := ClaimsOf(rows, picked);
      forall i | 0 <= i < |claims| && claims[i].id == id
        ensures claims[i].status == Failed && claims[i].updatedAt >= at
      {
        assert picked[i] == id && Candidate(rows[id], sys.config.maxRetries);
      }
      assert forall q :: 0 <= q < |sys.relays| && q != r ==> sys'.relays[q] == sys.relays[q];
    }
  }

  lemma StepKeepsSince(sys: System, m: Move, id: Id, at: Time)
    requires LeaseInv(sys) && FailedSince(sys, id, at)
    ensures FailedSince(Step(sys, m), id, at)
  {
    hide LeaseInv, Eligible, Sampled, FetchStep, SkipStep, MarkStep, ClaimsSince;
    match m {
      case Fetch(r, locked, picked) => if r < |sys.relays| { FetchSince(sys, r, locked, picked, id, at); }
      case Begin(r) => if r < |sys.relays| { SameTodo(sys.relays[r], sys.relays[r].(started := sys.now), id, at); }
      case Skip(r, delay, written) =>
        if r < |sys.relays| && sys.relays[r].todo != [] { SkipSince(sys, r, delay, written, id, at); }
      case Publish(r, _, ok) =>
        if r < |sys.relays| { SameTodo(sys.relays[r], sys.relays[r].(outcome := Some(ok)), id, at); }
      case Mark(r, written) =>
        if r < |sys.relays| && sys.relays[r].todo != [] { MarkSince(sys, r, written, id, at); }
      case Crash(r) => if r < |sys.relays| { NothingSince(sys.relays[r], id, at); }
      case _ =>
    }
  }

  lemma SkipSince(sys: System, r: nat, delay: Time, written: bool, id: Id, at: Time)
    requires LeaseInv(sys) && FailedSince(sys, id, at) && r < |sys.relays| && sys.relays[r].todo != []
    ensures FailedSince(SkipStep(sys, r, delay, written), id, at)
  {
    hide LeaseInv, Eligible, Sampled, ClaimsSince;
    HeadSince(sys, r, id, at);
  }

  lemma MarkSince(sys: System, r: nat, written: bool, id: Id, at: Time)
    requires LeaseInv(sys) && FailedSince(sys, id, at) && r < |sys.relays| && sys.relays[r].todo != []
    ensures FailedSince(MarkStep(sys, r, written), id, at)
  {
    hide LeaseInv, ClaimsSince;
    HeadSince(sys, r, id, at);
  }

  lemma SameTodo(relay: Relay, relay': Relay, id: Id, at: Time)
    requires relay'.todo == relay.todo && ClaimsSince(relay, id, at)
    ensures ClaimsSince(relay', id, at)
  {
  }

  lemma NothingSince(relay: Relay, id: Id, at: Time)
    ensures ClaimsSince(Idle(relay), id, at)
  {
  }

  lemma HeadSince(sys: System, r: nat, id: Id, at: Time)
    requires LeaseInv(sys) && FailedSince(sys, id, at) && r < |sys.relays| && sys.relays[r].todo != []
    ensures ClaimsSince(Drop(sys.relays[r]), id, at)
    ensures sys.relays[r].todo[0].id == id ==> at <= sys.relays[r].todo[0].updatedAt <= sys.relays[r].started
  {
    hide Exclusive, Accounted;
    RelayIsDistinct(sys, r);
    DropSince(sys.relays[r], id, at);
  }

  /** Recording a failure starts the wait. */
  lemma FailureStamps(sys: System, r: nat)
    requires LeaseInv(sys) && r < |sys.relays| && sys.relays[r].todo != [] && sys.relays[r].outcome == Some(false)
    ensures FailedSince(Step(sys, Mark(r, true)), sys.relays[r].todo[0].id, sys.relays[r].started)
  {
    hide Exclusive, Accounted, RelayInv;
    var relay, id := sys.relays[r], sys.relays[r].todo[0].id;
    RelayIsDistinct(sys, r);
    HeadHeld(relay);
    var relays := Step(sys, Mark(r, true)).relays;
    forall q | 0 <= q < |relays| ensures ClaimsSince(relays[q], id, relay.started) {
      if q != r { HeldElsewhere(sys.relays, r, q); }
      NotAmongIds(relays[q], id, relay.started);
    }
  }

  lemma NotAmongIds(relay: Relay, id: Id, at: Time)
    requires id !in Ids(relay)
    ensures ClaimsSince(relay, id, at)
  {
    forall i | 0 <= i < |relay.todo| ensures relay.todo[i].id in Ids(relay) { }
  }

  /** The move records a failed publish of the event. */
  predicate RecordsFailure(sys: System, m: Move, id: Id) {
    && m.Mark? && m.written && m.relay < |sys.relays| && sys.relays[m.relay].todo != []
    && sys.relays[m.relay].todo[0].id == id && sys.relays[m.relay].outcome == Some(false)
  }

  /** The move hands the event to the publisher. */
  predicate Attempts(sys: System, m: Move, id: Id) {
    && m.Publish? && m.relay < |sys.relays| && sys.relays[m.relay].todo != []
    && sys.relays[m.relay].todo[0].id == id && Step(sys, m) != sys
  }

  lemma {:induction false} SinceFailure(sys: System, moves: seq<Move>, j: nat, id: Id)
    requires Fresh(sys) && TimelyRun(sys, moves) && j < |moves|
    requires RecordsFailure(Run(sys, moves[..j]), moves[j], id)
    ensures FailedSince(Run(sys, moves), id, Run(sys, moves[..j]).relays[moves[j].relay].started)
  {
    hide TimelyRun, Timely, Step, LeaseInv, Fresh, FailedSince;
    var before := moves[..|moves| - 1];
    TimelyPrefix(sys, moves);
    RunKeeps(sys, before);
    if j == |moves| - 1 {
      FailureStamps(Run(sys, before), moves[j].relay);
    } else {
      assert before[..j] == moves[..j];
      SinceFailure(sys, before, j, id);
      StepKeepsSince(Run(sys, before), moves[|moves| - 1], id, Run(sys, moves[..j]).relays[moves[j].relay].started);
    }
  }

  /** The backoff is kept: once a failure is recorded, nobody hands the event to the publisher again before the delay
      sampled for that attempt has passed since the failing batch read its clock. */
  lemma {:induction false} BackoffIsKept(sys: System, moves: seq<Move>, j: nat, id: Id, m: Move)
    requires Fresh(sys) && TimelyRun(sys, moves) && j < |moves|
    requires RecordsFailure(Run(sys, moves[..j]), moves[j], id) && Attempts(Run(sys, moves), m, id)
    ensures Run(sys, moves).now >= Run(sys, moves[..j]).relays[moves[j].relay].started + m.delay
  {
    hide TimelyRun, Run, Fresh, Exclusive, Accounted, Sampled;
    SinceFailure(sys, moves, j, id);
    RunKeeps(sys, moves);
    var now := Run(sys, moves);
    RelayIsDistinct(now, m.relay);
    assert ClaimsSince(now.relays[m.relay], id, Run(sys, moves[..j]).relays[moves[j].relay].started);
  }

  // ---------------------------------------------------------------- nothing is lost

  /** Nothing is forgotten: at every point of the run an unpublished row under the retry limit is a candidate of
      the next fetch, or was claimed within the last minute; and left alone it is a candidate a minute later. */
  lemma {:induction false} UnpublishedComesBack(sys: System, moves: seq<Move>, id: Id)
    requires Fresh(sys) && TimelyRun(sys, moves) && id in Run(sys, moves).rows
    requires Run(sys, moves).rows[id].status != Published
    requires Run(sys, moves).rows[id].retryCount < sys.config.maxRetries
    ensures var end := Run(sys, moves);
            var row := end.rows[id];
            && (Candidate(Requeue(row, end.now), sys.config.maxRetries) <==>
                  !(row.status == Processing && end.now - MINUTE <= row.updatedAt <= end.now))
            && forall later :: later > end.now + MINUTE ==> Candidate(Requeue(row, later), sys.config.maxRetries)
  {
    hide TimelyRun, Run, Exclusive, RelayInv, Accounted;
    RunKeeps(sys, moves);
    assert RowInv(Run(sys, moves).rows[id], sys.config.maxRetries, Run(sys, moves).now);
  }
}
