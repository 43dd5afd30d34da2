/** Exactly when a claim is a lease. The marks have no status guard, so as soon as a claim outlives its minute
    and a second relay exists, a published event can become failed again; and only then. */
module LateOutcome {
  import opened Prelude
  import opened Outbox
  import opened Leases

  /** What the relay's constructor guarantees of its settings. */
  predicate ValidConfig(c: Config) {
    c.maxRetries > 0 && c.batch > 0 && ValidBackoff(c.backoff)
  }

  /** Relay r still owes the outcome of a claim that is older than a minute. */
  predicate Late(sys: System, r: nat) {
    r < |sys.relays| && sys.relays[r].todo != [] && sys.now - sys.relays[r].claimedAt > MINUTE
  }

  /** The clock stands still. */
  predicate Instant(moves: seq<Move>) {
    forall i :: 0 <= i < |moves| ==> !moves[i].Tick?
  }

  predicate PublishedRow(sys: System, id: Id) {
    id in sys.rows && sys.rows[id].status == Published
  }

  /** No row that is published on the way is touched afterwards. */
  ghost predicate PublishedKept(sys: System, moves: seq<Move>) {
    forall k, id :: 0 <= k <= |moves| && PublishedRow(Run(sys, moves[..k]), id) ==>
      id in Run(sys, moves).rows && Run(sys, moves).rows[id] == Run(sys, moves[..k]).rows[id]
  }

  // ---------------------------------------------------------------- a late claim breaks it

  lemma NoDelayIsSampled(b: Backoff, c: Claim)
    requires ValidBackoff(b)
    ensures Sampled(b, c, 0)
  {
    if c.retryCount > 0 { CeilingGrows(b, c.retryCount - 1); }
  }

  /** The idle relay q takes over the late claim: its row is stale, and q looks away from all others. */
  lemma TakesOver(sys: System, r: nat, q: nat) returns (m: Move)
    requires LeaseInv(sys) && ValidConfig(sys.config) && Late(sys, r)
    requires q < |sys.relays| && q != r && sys.relays[q].todo == []
    ensures m.Fetch?
    ensures var id := sys.relays[r].todo[0].id;
            var after := Step(sys, m);
            var c := Claim(id, Failed, sys.relays[r].todo[0].retryCount, sys.now);
            && after.relays == sys.relays[q := Relay(sys.now, sys.now, [c], None)]
            && id in after.rows && after.now == sys.now && after.config == sys.config
  {
    var relay := sys.relays[r];
    var id := relay.todo[0].id;
    RelayIsDistinct(sys, r);
    m := Fetch(q, sys.rows.Keys - {id}, [id]);
    var rows := Requeued(sys.rows, sys.now);
    hide LeaseInv;
    assert rows[id] == Row(Failed, relay.todo[0].retryCount, sys.rows[id].createdAt, sys.now);
    assert IsPick(rows, sys.config.maxRetries, sys.config.batch, sys.rows.Keys - {id}, [id]);
    assert ClaimsOf(rows, [id]) == [Claim(id, Failed, relay.todo[0].retryCount, sys.now)];
  }

  /** A relay whose first event is due publishes it without delay and writes the answer. */
  lemma Answers(sys: System, r: nat, ok: bool)
    requires r < |sys.relays| && sys.relays[r].todo != [] && sys.relays[r].outcome == None
    requires ValidConfig(sys.config) && sys.relays[r].todo[0].id in sys.rows
    requires Eligible(sys.relays[r].todo[0], sys.relays[r].started, 0)
    ensures var id := sys.relays[r].todo[0].id;
            var after := Step(Step(sys, Publish(r, 0, ok)), Mark(r, true));
            && id in after.rows && after.rows[id].status == (if ok then Published else Failed)
            && after.relays == sys.relays[r := Drop(sys.relays[r])] && after.config == sys.config
  {
    hide ValidBackoff;
    var relay := sys.relays[r];
    NoDelayIsSampled(sys.config.backoff, relay.todo[0]);
    hide Sampled, Eligible;
    var answered := relay.(outcome := Some(ok));
    assert Step(sys, Publish(r, 0, ok)).relays == sys.relays[r := answered];
    assert sys.relays[r := answered][r := Drop(answered)] == sys.relays[r := Drop(relay)];
  }

  lemma Writes(sys: System, r: nat)
    requires r < |sys.relays| && sys.relays[r].todo != [] && sys.relays[r].outcome.Some?
    requires sys.relays[r].todo[0].id in sys.rows
    ensures var id := sys.relays[r].todo[0].id;
            var after := Step(sys, Mark(r, true));
            && id in after.rows && after.rows[id].status == (if sys.relays[r].outcome.value then Published else Failed)
            && after.relays == sys.relays[r := Drop(sys.relays[r])] && after.config == sys.config
  {
  }

  /** From any state of the lease invariant in which a claim is late and another relay is idle, at most five
      moves publish its event and then fail it again, whatever the late relay has or has not heard. */
  lemma {:induction false} LateClaimBreaks(sys: System, r: nat, q: nat) returns (first: seq<Move>, second: seq<Move>)
    requires LeaseInv(sys) && ValidConfig(sys.config) && Late(sys, r)
    requires q < |sys.relays| && q != r && sys.relays[q].todo == []
    ensures |first + second| <= 5 && Instant(first + second)
    ensures var id := sys.relays[r].todo[0].id;
            && PublishedRow(Run(sys, first), id)
            && id in Run(sys, first + second).rows && Run(sys, first + second).rows[id].status == Failed
  {
    hide LeaseInv, Step, Run, ValidConfig;
    var id := sys.relays[r].todo[0].id;
    RelayIsDistinct(sys, r);
    LateIsDue(sys, r);
    var fetch := TakesOver(sys, r, q);
    var held := Step(sys, fetch);
    match sys.relays[r].outcome {
      case None =>
        Answers(held, q, true);
        Answers(Step(Step(held, Publish(q, 0, true)), Mark(q, true)), r, false);
        first, second := [fetch, Publish(q, 0, true), Mark(q, true)], [Publish(r, 0, false), Mark(r, true)];
        RunThree(sys, first[0], first[1], first[2]);
        RunTwo(Run(sys, first), second[0], second[1]);
      case Some(ok) =>
        if ok {
          Writes(held, r);
          Answers(Step(held, Mark(r, true)), q, false);
          first, second := [fetch, Mark(r, true)], [Publish(q, 0, false), Mark(q, true)];
          RunTwo(sys, first[0], first[1]);
          RunTwo(Run(sys, first), second[0], second[1]);
        } else {
          Answers(held, q, true);
          Writes(Step(Step(held, Publish(q, 0, true)), Mark(q, true)), r);
          first, second := [fetch, Publish(q, 0, true), Mark(q, true)], [Mark(r, true)];
          RunThree(sys, first[0], first[1], first[2]);
          RunOne(Run(sys, first), second[0]);
        }
    }
    RunConcat(sys, first, second);
  }

  /** What a relay was handed has been due, at the latest, since it was handed over. */
  lemma LateIsDue(sys: System, r: nat)
    requires LeaseInv(sys) && r < |sys.relays| && sys.relays[r].todo != []
    ensures Eligible(sys.relays[r].todo[0], sys.relays[r].started, 0)
  {
    RelayIsDistinct(sys, r);
  }

  // ---------------------------------------------------------------- nothing else does

  /** While the clock stands still, claims stay within their minute: new ones are taken now. */
  lemma StaysTimely(sys: System, m: Move)
    requires Timely(sys) && !m.Tick?
    ensures Timely(Step(sys, m)) && |Step(sys, m).relays| == |sys.relays|
  {
    hide IsPick, Requeued, Claimed, Eligible, Sampled, MarkedPublished, MarkedFailed, ClaimReleased;
  }

  lemma SameRelays(sys: System, m: Move)
    ensures |Step(sys, m).relays| == |sys.relays|
  {
    hide IsPick, Requeued, Claimed, Eligible, Sampled, MarkedPublished, MarkedFailed, ClaimReleased;
  }

  /** A relay by itself fetches only when it owes nothing. */
  lemma LoneFetch(sys: System, m: Move)
    requires |sys.relays| <= 1 && m.Fetch?
    ensures Timely(sys) || Step(sys, m) == sys
  {
    hide IsPick, Requeued, Claimed;
  }

  /** Timely, or with nobody to take over. */
  predicate Safe(sys: System) {
    Timely(sys) || |sys.relays| <= 1
  }

  lemma StaysSafe(sys: System, m: Move)
    requires LeaseInv(sys) && Safe(sys) && !m.Tick?
    ensures LeaseInv(Step(sys, m)) && Safe(Step(sys, m))
  {
    hide LeaseInv, Timely, Step;
    if Timely(sys) { StaysTimely(sys, m); }
    SameRelays(sys, m);
    if m.Fetch? && !Timely(sys) {
      LoneFetch(sys, m);
    } else {
      StepKeeps(sys, m);
    }
  }

  lemma {:induction false} SafeRun(sys: System, moves: seq<Move>)
    requires LeaseInv(sys) && Safe(sys) && Instant(moves)
    ensures LeaseInv(Run(sys, moves)) && Safe(Run(sys, moves))
  {
    hide LeaseInv, Safe, Step;
    if moves != [] {
      SafeRun(sys, moves[..|moves| - 1]);
      StaysSafe(Run(sys, moves[..|moves| - 1]), moves[|moves| - 1]);
    }
  }

  lemma {:induction false} SafeKeeps(sys: System, moves: seq<Move>, k: nat, id: Id)
    requires LeaseInv(sys) && Safe(sys) && Instant(moves)
    requires k <= |moves| && PublishedRow(Run(sys, moves[..k]), id)
    ensures id in Run(sys, moves).rows && Run(sys, moves).rows[id] == Run(sys, moves[..k]).rows[id]
  {
    hide LeaseInv, Safe, Step;
    if k == |moves| {
      assert moves[..k] == moves;
    } else {
      var before := moves[..|moves| - 1];
      assert before[..k] == moves[..k];
      SafeKeeps(sys, before, k, id);
      SafeRun(sys, before);
      StepKeepsPublished(Run(sys, before), moves[|moves| - 1], id);
    }
  }

  // ---------------------------------------------------------------- the exact condition

  /** Two relays and a late claim: the second relay, if it is busy, may as well have restarted. */
  lemma {:induction false} LateIsNotKept(sys: System, r: nat) returns (moves: seq<Move>)
    requires LeaseInv(sys) && ValidConfig(sys.config) && Late(sys, r) && |sys.relays| >= 2
    ensures Instant(moves) && !PublishedKept(sys, moves)
  {
    hide LeaseInv, ValidConfig, Step, Run;
    var q: nat := if r == 0 then 1 else 0;
    var crash := [Crash(q)];
    RunOne(sys, Crash(q));
    CrashKeeps(sys, q);
    Restarted(sys, q, r);
    var first, second := LateClaimBreaks(Step(sys, Crash(q)), r, q);
    RunConcat(sys, crash, first);
    RunConcat(sys, crash, first + second);
    moves := crash + (first + second);
    assert moves[..1 + |first|] == crash + first;
    var id := Step(sys, Crash(q)).relays[r].todo[0].id;
    assert PublishedRow(Run(sys, moves[..1 + |first|]), id);
  }

  lemma Restarted(sys: System, q: nat, r: nat)
    requires q < |sys.relays| && q != r && Late(sys, r)
    ensures var after := Step(sys, Crash(q));
            after.config == sys.config && Late(after, r) && q < |after.relays| && after.relays[q].todo == []
  {
  }

  /** At any point of a run, what is published is kept by every continuation at that instant if and only if no
      outstanding claim is older than a minute, or there is no second relay. */
  lemma {:induction false} KeptIffTimely(sys: System)
    requires LeaseInv(sys) && ValidConfig(sys.config)
    ensures Safe(sys) <==> forall moves :: Instant(moves) ==> PublishedKept(sys, moves)
  {
    hide LeaseInv, ValidConfig, Run;
    if Safe(sys) {
      forall moves | Instant(moves) ensures PublishedKept(sys, moves) {
        forall k, id | 0 <= k <= |moves| && PublishedRow(Run(sys, moves[..k]), id)
          ensures id in Run(sys, moves).rows && Run(sys, moves).rows[id] == Run(sys, moves[..k]).rows[id]
        {
          SafeKeeps(sys, moves, k, id);
        }
      }
    } else {
      var r :| 0 <= r < |sys.relays| && sys.relays[r].todo != [] && sys.now - sys.relays[r].claimedAt > MINUTE;
      var moves := LateIsNotKept(sys, r);
    }
  }

  ghost predicate KeptFrom(sys: System, moves: seq<Move>, k: nat)
    requires k <= |moves|
  {
    forall more :: Instant(more) ==> PublishedKept(Run(sys, moves[..k]), more)
  }

  ghost predicate SafeAt(sys: System, moves: seq<Move>, k: nat)
    requires k <= |moves|
  {
    Safe(Run(sys, moves[..k]))
  }

  lemma {:induction false} SafeMeansLeased(sys: System, moves: seq<Move>, k: nat)
    requires Fresh(sys) && k <= |moves| && forall j :: 0 <= j < k ==> SafeAt(sys, moves, j)
    ensures LeaseInv(Run(sys, moves[..k])) && Run(sys, moves[..k]).config == sys.config
  {
    hide LeaseInv, Fresh, Safe, Step;
    if k == 0 {
      StartsLeased(sys);
    } else {
      SafeMeansLeased(sys, moves, k - 1);
      assert moves[..k][..k - 1] == moves[..k - 1];
      var before, m := Run(sys, moves[..k - 1]), moves[k - 1];
      assert SafeAt(sys, moves, k - 1);
      SafeStepLeased(before, m);
      StepKeepsConfig(before, m);
    }
  }

  lemma SafeStepLeased(sys: System, m: Move)
    requires LeaseInv(sys) && Safe(sys)
    ensures LeaseInv(Step(sys, m))
  {
    hide LeaseInv, Timely, Step;
    if m.Fetch? && !Timely(sys) {
      LoneFetch(sys, m);
    } else {
      StepKeeps(sys, m);
    }
  }

  /** Over a whole run: everything published is safe at every point of it, whatever the relays then do at that
      instant, if and only if at every point no outstanding claim is older than a minute or there is one relay. */
  lemma {:induction false} RunKeptIffTimely(sys: System, moves: seq<Move>)
    requires Fresh(sys) && ValidConfig(sys.config)
    ensures (forall k :: 0 <= k <= |moves| ==> SafeAt(sys, moves, k)) <==>
            (forall k :: 0 <= k <= |moves| ==> KeptFrom(sys, moves, k))
  {
    hide LeaseInv, Fresh, ValidConfig, Safe, Run, PublishedKept;
    if forall k :: 0 <= k <= |moves| ==> SafeAt(sys, moves, k) {
      forall k | 0 <= k <= |moves| ensures KeptFrom(sys, moves, k) {
        SafeMeansLeased(sys, moves, k);
        assert SafeAt(sys, moves, k);
        KeptIffTimely(Run(sys, moves[..k]));
      }
    }
    if forall k :: 0 <= k <= |moves| ==> KeptFrom(sys, moves, k) {
      forall k | 0 <= k <= |moves| ensures SafeAt(sys, moves, k) {
        KeptMeansSafe(sys, moves, k);
      }
    }
  }

  lemma {:induction false} KeptMeansSafe(sys: System, moves: seq<Move>, k: nat)
    requires Fresh(sys) && ValidConfig(sys.config) && k <= |moves|
    requires forall j :: 0 <= j <= |moves| ==> KeptFrom(sys, moves, j)
    ensures forall j :: 0 <= j <= k ==> SafeAt(sys, moves, j)
  {
    hide LeaseInv, Fresh, ValidConfig, Safe, Run, PublishedKept;
    if k > 0 { KeptMeansSafe(sys, moves, k - 1); }
    SafeMeansLeased(sys, moves, k);
    assert KeptFrom(sys, moves, k);
    KeptIffTimely(Run(sys, moves[..k]));
  }
}
