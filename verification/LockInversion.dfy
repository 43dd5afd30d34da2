/** Exactly which captures can deadlock: a capture locks its own wallet row before the sorted ones, so one that
    also touches a wallet account below its own can block a posting on the two that blocks it. */
module LockInversion {
  import opened Prelude
  import opened Journal
  import opened Transactions
  import opened Ledger
  import opened Balances
  import opened Workers
  import opened Deadlock
  import opened Overflow
  import Progress

  /** Somebody has not finished and nobody can execute its next statement. */
  ghost predicate Stuck(sys: System) {
    && (exists i :: 0 <= i < |sys.workers| && Unfinished(sys.workers[i]))
    && forall i :: !CanStep(sys, i)
  }

  function Newcomer(op: Op): Worker {
    Worker(op, Start, Clock(0, 0), {}, true, true)
  }

  /** A capture and its partners, about to begin on the database s. */
  function Meeting(s: Store, now: Time, capture: Op, partners: seq<Op>): System {
    var workers := seq(|partners|, i requires 0 <= i < |partners| => Newcomer(partners[i]));
    System(s, now, [Newcomer(capture)] + workers, [], true)
  }

  /** Postings, releases and expirations, none of which locks a wallet out of order. */
  predicate Partners(partners: seq<Op>) {
    forall i :: 0 <= i < |partners| ==>
      WellFormed(partners[i]) && (partners[i].Post? || partners[i].Release? || partners[i].Expire?)
  }

  /** The capture can go ahead: its hold is authorized, unexpired, and has this account. */
  predicate Ready(s: Store, now: Time, capture: Op, own: Id) {
    && capture.Capture? && WellFormed(capture)
    && OwnAccount(s, capture) == Some(own)
    && FindHold(s, capture.holdId).Some?
    && FindHold(s, capture.holdId).value.status == Authorized
    && now < FindHold(s, capture.holdId).value.expiresAt
  }

  // ---------------------------------------------------------------- the colliding run

  function Duo(s: Store, now: Time, capturer: Worker, poster: Worker): System {
    System(s, now, [capturer, poster], [], true)
  }

  function Capturing(capture: Op, pc: Pc, now: Time, held: set<Resource>): Worker {
    Worker(capture, pc, Clock(now, now), held, true, true)
  }

  function OwnRows(own: Id, hold: Id): set<Resource> {
    {WalletRow(own), HoldRow(hold)}
  }

  /** One more statement of one of the two. */
  lemma DuoStep(start: System, s: Store, now: Time, c: Worker, p: Worker, i: nat, c': Worker, p': Worker)
    requires Reaches(start, Duo(s, now, c, p)) && i < 2
    requires AdvanceWorker(Duo(s, now, c, p), i, 0) == Duo(s, now, c', p')
    ensures Reaches(start, Duo(s, now, c', p'))
  {
    hide Reaches, AdvanceWorker;
    ReachesNext(start, Duo(s, now, c, p), Advance(i, 0));
  }

  lemma Unblocked(s: Store, now: Time, c: Worker, p: Worker, i: nat, us: set<Resource>)
    requires i < 2 && us !! (if i == 0 then p.held else c.held)
    ensures !Blocked(Duo(s, now, c, p), i, us)
  {
  }

  lemma DuoBlocked(s: Store, now: Time, c: Worker, p: Worker, i: nat, u: Resource)
    requires i < 2 && u in (if i == 0 then p.held else c.held)
    ensures Blocked(Duo(s, now, c, p), i, {u})
  {
    var sys := Duo(s, now, c, p);
    assert u in sys.workers[1 - i].held;
    assert HeldByOther(sys, i, u);
  }

  /** First the capture locks its own wallet row and its hold. */
  lemma CaptureLocks(start: System, s: Store, now: Time, capture: Op, own: Id, p: Worker)
    requires Ready(s, now, capture, own) && p.held == {}
    requires Reaches(start, Duo(s, now, Newcomer(capture), p))
    ensures Reaches(start, Duo(s, now, Capturing(capture, Locking(SortedAccounts(capture.tx.entry.postings)), now,
                                                 OwnRows(own, capture.holdId)), p))
  {
    hide Reaches, SortedAccounts, Blocked, WellFormed, FindHold;
    var none: set<Resource> := {};
    var c0, c1 := Newcomer(capture), Capturing(capture, LockOwn, now, {});
    DuoStep(start, s, now, c0, p, 0, c1, p);
    Unblocked(s, now, c1, p, 0, {WalletRow(own)});
    var c2 := Capturing(capture, LockHold, now, none + {WalletRow(own)});
    DuoStep(start, s, now, c1, p, 0, c2, p);
    Unblocked(s, now, c2, p, 0, {HoldRow(capture.holdId)});
    var c3 := Capturing(capture, Locking(SortedAccounts(capture.tx.entry.postings)), now, OwnRows(own, capture.holdId));
    assert none + {WalletRow(own)} + {HoldRow(capture.holdId)} == OwnRows(own, capture.holdId);
    DuoStep(start, s, now, c2, p, 0, c3, p);
  }

  /** One account further down a lock list, nobody else holding it. */
  lemma Climbs(start: System, s: Store, now: Time, c: Worker, p: Worker, i: nat, rest: seq<Id>) returns (w: Worker)
    requires i < 2 && Reaches(start, Duo(s, now, c, p)) && rest != []
    requires var x := if i == 0 then c else p; var y := if i == 0 then p else c;
             x.pc == Locking(rest) && (rest[0] in s.wallets.Values ==> WalletRow(rest[0]) !in y.held)
    ensures var x := if i == 0 then c else p;
            && w == x.(pc := Locking(rest[1..]), held := w.held) && x.held <= w.held <= x.held + {WalletRow(rest[0])}
            && (rest[0] in s.wallets.Values ==> WalletRow(rest[0]) in w.held)
    ensures Reaches(start, if i == 0 then Duo(s, now, w, p) else Duo(s, now, c, w))
  {
    hide Reaches, Blocked;
    var x := if i == 0 then c else p;
    if rest[0] in s.wallets.Values {
      Unblocked(s, now, c, p, i, {WalletRow(rest[0])});
      w := x.(pc := Locking(rest[1..]), held := x.held + {WalletRow(rest[0])});
    } else {
      w := x.(pc := Locking(rest[1..]));
    }
    DuoStep(start, s, now, c, p, i, if i == 0 then w else c, if i == 0 then p else w);
  }

  /** Then the posting locks every wallet row below the capture's own, and stands before that one. */
  lemma {:induction false} PosterClimbs(
    start: System, s: Store, now: Time, c: Worker, p: Worker, rest: seq<Id>, own: Id)
    returns (p': Worker)
    requires Reaches(start, Duo(s, now, c, p)) && p.pc == Locking(rest)
    requires StrictlyIncreasing(rest) && own in rest
    requires forall b: Id :: WalletRow(b) in c.held ==> b == own
    ensures Reaches(start, Duo(s, now, c, p'))
    ensures p' == p.(pc := p'.pc, held := p'.held) && p.held <= p'.held
    ensures p'.pc.Locking? && p'.pc.rest != [] && p'.pc.rest[0] == own
    ensures forall b :: b in rest && b < own && b in s.wallets.Values ==> WalletRow(b) in p'.held
    decreases |rest|
  {
    hide Reaches;
    FirstIsLeast(rest, own);
    if rest[0] == own {
      p' := p;
      forall b | b in rest ensures own <= b { FirstIsLeast(rest, b); }
    } else {
      var w := Climbs(start, s, now, c, p, 1, rest);
      assert rest == [rest[0]] + rest[1..];
      p' := PosterClimbs(start, s, now, c, w, rest[1..], own);
    }
  }

  /** Last the capture goes on until it stands before a row that the posting holds. */
  lemma {:induction false} CaptureClimbs(start: System, s: Store, now: Time, c: Worker, p: Worker, rest: seq<Id>, a: Id)
    returns (c': Worker)
    requires Reaches(start, Duo(s, now, c, p)) && c.pc == Locking(rest)
    requires a in rest && a in s.wallets.Values && WalletRow(a) in p.held
    ensures Reaches(start, Duo(s, now, c', p))
    ensures c' == c.(pc := c'.pc, held := c'.held) && c.held <= c'.held
    ensures c'.pc.Locking? && c'.pc.rest != []
    ensures c'.pc.rest[0] in s.wallets.Values && WalletRow(c'.pc.rest[0]) in p.held
    decreases |rest|
  {
    hide Reaches;
    if rest[0] in s.wallets.Values && WalletRow(rest[0]) in p.held {
      c' := c;
    } else {
      var w := Climbs(start, s, now, c, p, 0, rest);
      assert rest == [rest[0]] + rest[1..];
      c' := CaptureClimbs(start, s, now, w, p, rest[1..], a);
    }
  }

  lemma BothStuck(s: Store, now: Time, c: Worker, p: Worker)
    requires c.pc.Locking? && c.pc.rest != [] && p.pc.Locking? && p.pc.rest != []
    requires c.pc.rest[0] in s.wallets.Values && WalletRow(c.pc.rest[0]) in p.held
    requires p.pc.rest[0] in s.wallets.Values && WalletRow(p.pc.rest[0]) in c.held
    ensures Stuck(Duo(s, now, c, p))
  {
    var sys := Duo(s, now, c, p);
    DuoBlocked(s, now, c, p, 0, WalletRow(c.pc.rest[0]));
    DuoBlocked(s, now, c, p, 1, WalletRow(p.pc.rest[0]));
    assert Unfinished(sys.workers[0]);
    forall i: nat, pick | i < |sys.workers| ensures AdvanceWorker(sys, i, pick) == sys {
      hide Blocked;
    }
  }

  /** For every database, every capture that is ready and touches a wallet account a below its own, and every new
      posting that touches both: some schedule leaves the two waiting for each other. */
  lemma {:induction false} InvertedCaptureDeadlocks(s: Store, now: Time, capture: Op, own: Id, a: Id, post: Op)
    returns (schedule: seq<Move>)
    requires Ready(s, now, capture, own) && a in Guarded(s, capture) && a < own
    requires post.Post? && WellFormed(post) && post.key !in s.keys
    requires a in Accounts(post.tx.entry.postings) && own in Accounts(post.tx.entry.postings)
    ensures Stuck(Run(Meeting(s, now, capture, [post]), schedule))
  {
    hide Reaches, Run, Stuck, WellFormed, SortedAccounts, FindHold, AdvanceWorker;
    var start := Meeting(s, now, capture, [post]);
    var c0, p0 := Newcomer(capture), Newcomer(post);
    assert start == Duo(s, now, c0, p0);
    ReachesItself(start);
    CaptureLocks(start, s, now, capture, own, p0);
    var mine, theirs := SortedAccounts(capture.tx.entry.postings), SortedAccounts(post.tx.entry.postings);
    var c1 := Capturing(capture, Locking(mine), now, OwnRows(own, capture.holdId));
    var p1 := p0.(pc := Locking(theirs), clock := Clock(now, now));
    PostBegins(s, now, c1, p0);
    DuoStep(start, s, now, c1, p0, 1, c1, p1);
    var p2 := PosterClimbs(start, s, now, c1, p1, theirs, own);
    var c2 := CaptureClimbs(start, s, now, c1, p2, mine, a);
    OwnIsWallet(s, capture, own);
    BothStuck(s, now, c2, p2);
    schedule := ScheduleTo(start, Duo(s, now, c2, p2));
  }

  lemma ScheduleTo(start: System, sys: System) returns (schedule: seq<Move>)
    requires Reaches(start, sys)
    ensures Run(start, schedule) == sys
  {
    schedule :| Run(start, schedule) == sys;
  }

  lemma PostBegins(s: Store, now: Time, c: Worker, p: Worker)
    requires p.pc == Start && p.op.Post? && p.op.key !in s.keys
    ensures AdvanceWorker(Duo(s, now, c, p), 1, 0) ==
            Duo(s, now, c, p.(pc := Locking(SortedAccounts(p.op.tx.entry.postings)), clock := Clock(now, now)))
  {
    hide SortedAccounts;
  }

  lemma OwnIsWallet(s: Store, op: Op, own: Id)
    requires OwnAccount(s, op) == Some(own)
    ensures own in s.wallets.Values
  {
    hide FindHold;
  }

  // ---------------------------------------------------------------- such a posting exists

  lemma {:induction false} LongerThanAll(keys: set<string>) returns (n: nat)
    ensures forall k :: k in keys ==> |k| < n
  {
    if keys == {} {
      n := 0;
    } else {
      var k :| k in keys;
      var m := LongerThanAll(keys - {k});
      n := if |k| < m then m else |k| + 1;
    }
  }

  lemma {:induction false} AboveAll(ps: seq<Posting>) returns (n: nat)
    ensures forall i :: 0 <= i < |ps| ==> ps[i].id < n
  {
    if ps == [] {
      n := 0;
    } else {
      var m := AboveAll(ps[..|ps| - 1]);
      n := if ps[|ps| - 1].id < m then m else ps[|ps| - 1].id + 1;
    }
  }

  /** A posting of one unit between the two accounts, with a key and ids of its own. */
  lemma {:induction false} Opponent(s: Store, capture: Op, a: Id, own: Id) returns (post: Op)
    requires capture.Capture? && 0 < a < own
    ensures post.Post? && WellFormed(post) && post.key !in s.keys
    ensures a in Accounts(post.tx.entry.postings) && own in Accounts(post.tx.entry.postings)
    ensures !SharesRowIds(post.tx, capture.tx) && !SharesRowIds(capture.tx, post.tx)
  {
    hide Constructed;
    var n := LongerThanAll(s.keys.Keys);
    var m := AboveAll(capture.tx.entry.postings);
    var id := m + capture.tx.entry.id + 1;
    var tx := Transfer(id, a, own, 1);
    TransferConstructed(id, a, own, 1);
    var key := seq(n, i => 'k');
    assert |key| == n;
    post := Post(tx, key, "h");
    assert tx.entry.postings[0].account == a && tx.entry.postings[1].account == own;
  }

  // ---------------------------------------------------------------- the exact condition

  /** Some postings, releases and expirations, on the same database and with row ids of their own, can bring the
      capture into a deadlock. */
  ghost predicate CanDeadlock(s: Store, now: Time, capture: Op) {
    exists partners: seq<Op>, schedule: seq<Move> ::
      && Partners(partners)
      && IdsPerRequest(Meeting(s, now, capture, partners))
      && Stuck(Run(Meeting(s, now, capture, partners), schedule))
  }

  lemma MeetingIsInitial(s: Store, now: Time, capture: Op, own: Id, partners: seq<Op>)
    requires Ready(s, now, capture, own) && Partners(partners)
    ensures Initial(Meeting(s, now, capture, partners))
    ensures (forall a :: a in Guarded(s, capture) ==> own <= a) ==>
              Progress.SettlementsGoUp(Meeting(s, now, capture, partners))
  {
    hide WellFormed, FindHold, Guarded;
    var sys := Meeting(s, now, capture, partners);
    forall i | 0 <= i < |sys.workers| ensures sys.workers[i] == Newcomer(if i == 0 then capture else partners[i - 1]) {
    }
  }

  lemma PairMintsIds(s: Store, now: Time, capture: Op, post: Op)
    requires capture.Capture? && post.Post?
    requires !SharesRowIds(post.tx, capture.tx) && !SharesRowIds(capture.tx, post.tx)
    ensures IdsPerRequest(Meeting(s, now, capture, [post]))
  {
    hide SharesRowIds;
  }

  lemma AccountsNotZero(op: Op, a: Id)
    requires op.Capture? && WellFormed(op) && a in Accounts(op.tx.entry.postings)
    ensures a > 0
  {
    var i :| 0 <= i < |op.tx.entry.postings| && op.tx.entry.postings[i].account == a;
    assert op.tx.entry.postings[i].Valid();
  }

  /** A capture whose hold is authorized and unexpired can be brought into a deadlock if and only if it touches a
      wallet account below its hold's own. */
  lemma {:induction false} CaptureDeadlocksIff(s: Store, now: Time, capture: Op, own: Id)
    requires SoundRows(s) && Ready(s, now, capture, own)
    ensures CanDeadlock(s, now, capture) <==> exists a :: a in Guarded(s, capture) && a < own
  {
    hide Run, SoundRows, WellFormed, FindHold, SharesRowIds, IdsPerRequest, Meeting, Partners, Guarded, CanStep;
    if a :| a in Guarded(s, capture) && a < own {
      GuardedIsTouched(s, capture, a);
      AccountsNotZero(capture, a);
      var post := Opponent(s, capture, a, own);
      PairMintsIds(s, now, capture, post);
      var schedule := InvertedCaptureDeadlocks(s, now, capture, own, a, post);
      OnePartner(post);
      assert Stuck(Run(Meeting(s, now, capture, [post]), schedule));
    } else {
      forall partners: seq<Op>, schedule: seq<Move>
        | Partners(partners) && IdsPerRequest(Meeting(s, now, capture, partners))
        ensures !Stuck(Run(Meeting(s, now, capture, partners), schedule))
      {
        var sys := Meeting(s, now, capture, partners);
        MeetingIsInitial(s, now, capture, own, partners);
        SameStore(s, now, capture, partners);
        if exists k :: 0 <= k < |Run(sys, schedule).workers| && Unfinished(Run(sys, schedule).workers[k]) {
          var i := Progress.NoReachableDeadlock(sys, schedule);
        }
      }
    }
  }

  lemma GuardedIsTouched(s: Store, op: Op, a: Id)
    requires PostLike(op) && a in Guarded(s, op)
    ensures a in Accounts(op.tx.entry.postings)
  {
  }

  lemma OnePartner(post: Op)
    requires post.Post? && WellFormed(post)
    ensures Partners([post])
  {
  }

  lemma SameStore(s: Store, now: Time, capture: Op, partners: seq<Op>)
    ensures Meeting(s, now, capture, partners).store == s
  {
  }
}
