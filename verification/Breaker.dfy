/** The circuit breaker: admissions and completions of overlapping calls, each atomic under the mutex, on a
    monotone clock. */
module Breaker {
  import opened Prelude

  datatype Mode = Closed | HalfOpen | Open

  datatype Config = Config(failureThreshold: nat, successThreshold: nat, timeout: Time)

  /** Thresholds and timeout after the constructor's defaults. */
  predicate ValidConfig(c: Config) {
    c.failureThreshold > 0 && c.successThreshold > 0 && c.timeout > 0
  }

  datatype Breaker = Breaker(mode: Mode, failures: nat, successes: nat, since: Time)

  /** A call asks to start, a call ends, or somebody looks at the state. Calls overlap, so an end may belong to
      a call admitted in any earlier mode. */
  datatype Event = Admission(at: Time) | Completion(at: Time, ok: bool) | Inspection(at: Time)

  function Moved(b: Breaker, mode: Mode, now: Time): Breaker {
    if b.mode == mode then b else Breaker(mode, 0, 0, now)
  }

  function Evaluated(b: Breaker, c: Config, now: Time): Breaker {
    if b.mode == Open && now - b.since >= c.timeout then Moved(b, HalfOpen, now) else b
  }

  function Ended(b: Breaker, c: Config, now: Time, ok: bool): Breaker {
    match b.mode
    case Open => b
    case Closed =>
      if ok then b.(failures := 0)
      else if b.failures + 1 >= c.failureThreshold then Moved(b, Open, now)
      else b.(failures := b.failures + 1)
    case HalfOpen =>
      if !ok then Moved(b, Open, now)
      else if b.successes + 1 >= c.successThreshold then Moved(b, Closed, now)
      else b.(successes := b.successes + 1)
  }

  function Next(b: Breaker, c: Config, e: Event): Breaker {
    match e
    case Admission(at) => Evaluated(b, c, at)
    case Inspection(at) => Evaluated(b, c, at)
    case Completion(at, ok) => Ended(b, c, at, ok)
  }

  class CircuitBreaker {
    const config: Config
    var mode: Mode
    var failures: nat
    var successes: nat
    var since: Time

    constructor (failureThreshold: int, successThreshold: int, timeout: Time, now: Time)
      ensures ValidConfig(config) && Value() == Breaker(Closed, 0, 0, now)
      ensures config == Config(if failureThreshold <= 0 then 5 else failureThreshold,
                               if successThreshold <= 0 then 2 else successThreshold,
                               if timeout <= 0 then 10_000_000_000 else timeout)
    {
      config := Config(if failureThreshold <= 0 then 5 else failureThreshold,
                       if successThreshold <= 0 then 2 else successThreshold,
                       if timeout <= 0 then 10_000_000_000 else timeout);
      mode, failures, successes, since := Closed, 0, 0, now;
    }

    function Value(): Breaker
      reads this
    {
      Breaker(mode, failures, successes, since)
    }

    method TransitionTo(next: Mode, now: Time)
      modifies this
      ensures Value() == Moved(old(Value()), next, now)
    {
      if mode == next { return; }
      mode, since, failures, successes := next, now, 0, 0;
    }

    method EvaluateStateChange(now: Time)
      modifies this
      ensures Value() == Evaluated(old(Value()), config, now)
    {
      if mode == Open && now - since >= config.timeout { TransitionTo(HalfOpen, now); }
    }

    method State(now: Time) returns (r: Mode)
      modifies this
      ensures Value() == Next(old(Value()), config, Inspection(now)) && r == mode
    {
      EvaluateStateChange(now);
      return mode;
    }

    method BeforeExecution(now: Time) returns (admitted: bool)
      modifies this
      ensures Value() == Next(old(Value()), config, Admission(now)) && (admitted <==> mode != Open)
    {
      EvaluateStateChange(now);
      return mode != Open;
    }

    method AfterExecution(now: Time, ok: bool)
      modifies this
      ensures Value() == Next(old(Value()), config, Completion(now, ok))
    {
      if ok { OnSuccess(now); } else { OnFailure(now); }
    }

    method OnSuccess(now: Time)
      modifies this
      ensures Value() == Ended(old(Value()), config, now, true)
    {
      match mode
      case Closed => failures := 0;
      case HalfOpen =>
        successes := successes + 1;
        if successes >= config.successThreshold { TransitionTo(Closed, now); }
      case Open =>
    }

    method OnFailure(now: Time)
      modifies this
      ensures Value() == Ended(old(Value()), config, now, false)
    {
      match mode
      case Closed =>
        failures := failures + 1;
        if failures >= config.failureThreshold { TransitionTo(Open, now); }
      case HalfOpen => TransitionTo(Open, now);
      case Open =>
    }
  }

  // ---------------------------------------------------------------- schedules

  function After(c: Config, start: Time, events: seq<Event>): Breaker {
    if events == [] then Breaker(Closed, 0, 0, start)
    else Next(After(c, start, events[..|events| - 1]), c, events[|events| - 1])
  }

  function ModeAt(c: Config, start: Time, events: seq<Event>, k: nat): Mode
    requires k <= |events|
  {
    After(c, start, events[..k]).mode
  }

  /** How many events had happened when the present mode was entered. */
  function Entered(c: Config, start: Time, events: seq<Event>): (k: nat)
    ensures k <= |events|
  {
    if events == [] then 0
    else
      var n := |events| - 1;
      if After(c, start, events[..n]).mode != After(c, start, events).mode then |events|
      else Entered(c, start, events[..n])
  }

  /** How many of the latest completions failed in a row; admissions and inspections between them do not count. */
  function FailingSuffix(events: seq<Event>): nat {
    if events == [] then 0
    else match events[|events| - 1]
      case Completion(_, ok) => if ok then 0 else 1 + FailingSuffix(events[..|events| - 1])
      case _ => FailingSuffix(events[..|events| - 1])
  }

  function Completions(events: seq<Event>): nat {
    if events == [] then 0
    else Completions(events[..|events| - 1]) + if events[|events| - 1].Completion? then 1 else 0
  }

  predicate NoFailures(events: seq<Event>) {
    forall i :: 0 <= i < |events| && events[i].Completion? ==> events[i].ok
  }

  predicate Monotone(start: Time, events: seq<Event>) {
    && (forall i :: 0 <= i < |events| ==> start <= events[i].at)
    && (forall i, k :: 0 <= i < k < |events| ==> events[i].at <= events[k].at)
  }

  lemma SinceEntry(c: Config, start: Time, events: seq<Event>)
    requires events != []
    ensures var n := |events| - 1;
            var k := Entered(c, start, events);
            if k == |events| then events[k..] == []
            else k == Entered(c, start, events[..n]) && events[k..][..|events[k..]| - 1] == events[..n][k..] &&
                 events[k..] != [] && events[k..][|events[k..]| - 1] == events[n]
  {
  }

  /** The counters are what the schedule says. In Closed the failure count is the length of the failing suffix
      of the completions since Closed was entered, and is below its threshold. In HalfOpen every completion
      since it was entered succeeded, the success count is how many there were, and is below its threshold. */
  lemma {:induction false} CountersMeanTheirSchedule(c: Config, start: Time, events: seq<Event>)
    requires ValidConfig(c)
    ensures var b := After(c, start, events);
            var since := events[Entered(c, start, events)..];
            && (b.mode == Closed ==> b.failures == FailingSuffix(since) < c.failureThreshold)
            && (b.mode == HalfOpen ==>
                  NoFailures(since) && b.successes == Completions(since) < c.successThreshold)
            && (b.mode != Closed ==> b.failures == 0) && (b.mode != HalfOpen ==> b.successes == 0)
  {
    if events != [] {
      CountersMeanTheirSchedule(c, start, events[..|events| - 1]);
      SinceEntry(c, start, events);
    }
  }

  /** The mode changes along four edges only, and exactly when the schedule calls for it. */
  lemma {:induction false} EdgesAndCauses(c: Config, start: Time, events: seq<Event>, k: nat)
    requires ValidConfig(c) && k < |events|
    ensures var from, to := ModeAt(c, start, events, k), ModeAt(c, start, events, k + 1);
            var since := events[..k][Entered(c, start, events[..k])..];
            var failed := events[k].Completion? && !events[k].ok;
            var passed := events[k].Completion? && events[k].ok;
            && (from == Closed ==>
                  to == if failed && FailingSuffix(since) + 1 >= c.failureThreshold then Open else Closed)
            && (from == HalfOpen ==>
                  to == if failed then Open
                        else if passed && Completions(since) + 1 >= c.successThreshold then Closed else HalfOpen)
            && (from == Open ==>
                  to == if !events[k].Completion? && events[k].at - After(c, start, events[..k]).since >= c.timeout
                        then HalfOpen else Open)
  {
    CountersMeanTheirSchedule(c, start, events[..k]);
    assert events[..k + 1][..k] == events[..k];
  }

  /** Event i opens the breaker. */
  predicate OpensAt(c: Config, start: Time, events: seq<Event>, i: nat)
    requires i < |events|
  {
    ModeAt(c, start, events, i) != Open == ModeAt(c, start, events, i + 1)
  }

  /** Until its timeout has passed, an opening lasts. */
  lemma {:induction false} StaysOpen(c: Config, start: Time, events: seq<Event>, i: nat, k: nat)
    requires ValidConfig(c) && Monotone(start, events) && i < k <= |events|
    requires OpensAt(c, start, events, i)
    requires forall j :: i < j < k ==> events[j].at < events[i].at + c.timeout
    ensures After(c, start, events[..k]).mode == Open && After(c, start, events[..k]).since == events[i].at
  {
    assert events[..k][..k - 1] == events[..k - 1];
    if k == i + 1 {
      assert events[..k][i] == events[i];
    } else {
      StaysOpen(c, start, events, i, k - 1);
    }
  }

  /** No call is admitted within the timeout of an opening, however many completions of older calls arrive in
      the meantime. */
  lemma {:induction false} NoAdmissionWithinTimeout(c: Config, start: Time, events: seq<Event>, i: nat, k: nat)
    requires ValidConfig(c) && Monotone(start, events) && i < k < |events|
    requires OpensAt(c, start, events, i)
    requires events[k].Admission? && ModeAt(c, start, events, k + 1) != Open
    ensures events[k].at >= events[i].at + c.timeout
  {
    if events[k].at < events[i].at + c.timeout {
      forall j | i < j < k + 1 ensures events[j].at < events[i].at + c.timeout {
        if j < k { assert events[j].at <= events[k].at; }
      }
      StaysOpen(c, start, events, i, k + 1);
    }
  }

  /** An open breaker was opened by some event, when its clock says. */
  lemma {:induction false} OpenWasOpened(c: Config, start: Time, events: seq<Event>, k: nat) returns (i: nat)
    requires ValidConfig(c) && k <= |events| && ModeAt(c, start, events, k) == Open
    ensures i < k && OpensAt(c, start, events, i) && After(c, start, events[..k]).since == events[i].at
  {
    assert events[..k][..k - 1] == events[..k - 1];
    if ModeAt(c, start, events, k - 1) == Open {
      i := OpenWasOpened(c, start, events, k - 1);
    } else {
      i := k - 1;
    }
  }

  /** In every schedule a request is turned away if and only if some earlier event opened the breaker less than the
      timeout ago: never within the timeout of an opening does a call get through, and afterwards the first does. */
  lemma {:induction false} RefusedIffJustOpened(c: Config, start: Time, events: seq<Event>, k: nat)
    requires ValidConfig(c) && Monotone(start, events) && k < |events| && events[k].Admission?
    ensures ModeAt(c, start, events, k + 1) == Open <==>
            exists i :: 0 <= i < k && OpensAt(c, start, events, i) && events[k].at < events[i].at + c.timeout
  {
    assert events[..k + 1][..k] == events[..k];
    if ModeAt(c, start, events, k + 1) == Open {
      var i := OpenWasOpened(c, start, events, k);
    } else if i :| 0 <= i < k && OpensAt(c, start, events, i) && events[k].at < events[i].at + c.timeout {
      NoAdmissionWithinTimeout(c, start, events, i, k);
    }
  }
}
