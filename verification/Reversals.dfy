/** Reversing a posted transaction: read it back, mirror it, post the mirror. */
module Reversals {
  import opened Prelude
  import opened Money
  import opened Journal
  import opened Transactions
  import opened Ledger
  import opened Balances
  import opened Bookkeeping
  import opened LedgerRepository

  datatype ReverseFailure =
    | EmptyIdempotencyKey
    | EmptyRequestHash
    | InvalidOriginalId
    | UnknownOriginal
    | NotReversible(error: DomainError)
    | PostRefused(refusal: Refusal)

  datatype ReverseCommand = ReverseCommand(
    originalId: Id, newId: Id, newEntryId: Id, newPostingIds: seq<Id>, description: string, key: string, hash: string)

  lemma SideWithout(ps: seq<Posting>, k: nat, a: Id, d: Direction)
    requires k < |ps|
    ensures Side(ps, a, d) == Side(Without(ps, k), a, d) + Side([ps[k]], a, d)
  {
    assert ps == ps[..k] + ([ps[k]] + ps[k + 1..]);
    SideConcat(ps[..k], [ps[k]] + ps[k + 1..], a, d);
    SideConcat([ps[k]], ps[k + 1..], a, d);
    SideConcat(ps[..k], ps[k + 1..], a, d);
  }

  /** What an entry does to an account does not depend on the order of its postings. */
  lemma {:induction false} SidePermuted(ps: seq<Posting>, qs: seq<Posting>, a: Id, d: Direction)
    requires multiset(ps) == multiset(qs)
    ensures Side(ps, a, d) == Side(qs, a, d)
    decreases |ps|
  {
    if ps == [] {
      assert |multiset(qs)| == |qs|;
    } else {
      var k := Shared(ps, qs);
      RemoveOne(ps, 0, d);
      RemoveOne(qs, k, d);
      SideWithout(ps, 0, a, d);
      SideWithout(qs, k, a, d);
      SidePermuted(Without(ps, 0), Without(qs, k), a, d);
    }
  }

  /** Reversals aim at transactions that are in the ledger and are not reversals themselves. */
  predicate AimsAtOriginal(log: seq<Transaction>, tx: Transaction) {
    tx.reverses.Some? ==> exists i :: 0 <= i < |log| && log[i].id == tx.reverses.value && log[i].reverses == None
  }

  predicate OriginalsReversed(log: seq<Transaction>) {
    forall k :: 0 <= k < |log| ==> AimsAtOriginal(log[..k], log[k])
  }

  /** One more transaction keeps reversals aimed at originals exactly when it is none or aims at one itself. */
  lemma {:induction false} OriginalsStayReversed(log: seq<Transaction>, tx: Transaction)
    requires OriginalsReversed(log)
    ensures OriginalsReversed(log + [tx]) <==> AimsAtOriginal(log, tx)
  {
    hide AimsAtOriginal;
    var longer := log + [tx];
    if !AimsAtOriginal(log, tx) {
      assert longer[..|log|] == log && !AimsAtOriginal(longer[..|log|], longer[|log|]);
      return;
    }
    forall k | 0 <= k < |longer| ensures AimsAtOriginal(longer[..k], longer[k]) {
      assert k < |log| ==> longer[..k] == log[..k];
      assert longer[..|log|] == log;
    }
  }

  /** With distinct ids and no transaction reversed twice, reversal is a partial injection from reversals to
      originals: every reversal has one original, and no two share it. */
  lemma {:induction false} ReversalIsInjective(s: Store, r: nat, q: nat)
    requires LedgerInv(s) && OriginalsReversed(s.log)
    requires r < |s.log| && q < |s.log| && s.log[r].reverses.Some? && s.log[q].reverses.Some?
    ensures s.log[r].reverses == s.log[q].reverses <==> r == q
    ensures exists o :: 0 <= o < r && s.log[o].id == s.log[r].reverses.value && s.log[o].reverses == None
  {
    hide Constructed;
    assert AimsAtOriginal(s.log[..r], s.log[r]);
    var i :| 0 <= i < r && s.log[..r][i].id == s.log[r].reverses.value && s.log[..r][i].reverses == None;
    assert s.log[i] == s.log[..r][i];
  }

  /** A reversal of a transaction moves every account back by exactly what the original moved it. */
  lemma ReversalDelta(tx: Transaction, t: Transaction, r: Transaction, a: Id)
    requires Constructed(t) && SameUpToOrder(t, tx) && Undoes(r, t)
    ensures Delta(r.entry.postings, a) == -Delta(tx.entry.postings, a)
  {
    SidePermuted(t.entry.postings, tx.entry.postings, a, Debit);
    SidePermuted(t.entry.postings, tx.entry.postings, a, Credit);
    MirroredSides(t.entry.postings, r.entry.postings, t.entry.currency, a);
  }

  /** The posted reversal r of the logged transaction tx took every balance back. */
  ghost predicate TakenBack(s: Store, s': Store, tx: Transaction) {
    forall a: Id :: LedgerBalance(s', a) == LedgerBalance(s, a) - Delta(tx.entry.postings, a)
  }

  /** What a command needs of the original to make a reversal of it. */
  predicate Reversible(c: ReverseCommand, original: Transaction) {
    && original.reverses == None && c.newId != 0 && c.newEntryId != 0 && c.newId != c.originalId
    && |c.newPostingIds| == |original.entry.postings| && 0 !in c.newPostingIds
    && Trim(c.description) != ""
  }

  /** Why no reversal of the original can be made, in the order of the checks. */
  function ReversalFault(c: ReverseCommand, original: Transaction): DomainError {
    if original.reverses.Some? then CannotReverseReversal
    else if c.newId == 0 || c.newEntryId == 0 then InvalidId
    else if c.newId == c.originalId then ReversalSameTransactionId
    else if |c.newPostingIds| != |original.entry.postings| then InvalidReversalPostingIdCount
    else if 0 in c.newPostingIds then InvalidId
    else EmptyDescription
  }

  /** The command's new ids are free, and nothing has reversed the original yet. */
  predicate MirrorInsertable(s: Store, c: ReverseCommand) {
    && !HasTransaction(s, c.newId) && !HasReversalOf(s, c.originalId) && !HasEntry(s, c.newEntryId)
    && Distinct(c.newPostingIds) && forall i :: 0 <= i < |c.newPostingIds| ==> !HasPosting(s, c.newPostingIds[i])
  }

  /** Every wallet account of the original can be read and give back what the original moved. */
  predicate MirrorStaysInWord(s: Store, original: Transaction, now: Time) {
    forall a :: a in Accounts(original.entry.postings) && a in s.wallets.Values ==>
      CreditsFit(s, a) && 0 <= Available(s, a, now) - Delta(original.entry.postings, a) <= MAX_INT64
  }

  /** The answer to a reversal that could be built, as the key, the balances and the new ids decide, in this order. */
  predicate AnswersReversal(
    r: Result<Transaction, ReverseFailure>, s: Store, c: ReverseCommand, original: Transaction, now: Time)
  {
    var key, row := Trim(c.key), KeyRow(Trim(c.hash), c.newId);
    var fits, insertable := MirrorStaysInWord(s, original, now), MirrorInsertable(s, c);
    && (r.Ok? <==> if key in s.keys then s.keys[key] == row else fits && insertable)
    && (r == Err(PostRefused(IdempotencyConflict)) <==> key in s.keys && s.keys[key] != row)
    && (r == Err(PostRefused(InsufficientBalance)) <==> key !in s.keys && !fits)
    && (r == Err(PostRefused(ConstraintViolation)) <==> key !in s.keys && fits && !insertable)
  }

  lemma MultisetAccounts(ps: seq<Posting>, qs: seq<Posting>)
    requires multiset(ps) == multiset(qs)
    ensures Accounts(ps) == Accounts(qs)
  {
    forall a ensures a in Accounts(ps) <==> a in Accounts(qs) {
      InAccounts(ps, a);
      InAccounts(qs, a);
      if p :| p in ps && p.account == a { assert p in multiset(ps); }
      if p :| p in qs && p.account == a { assert p in multiset(qs); }
    }
  }

  lemma InAccounts(ps: seq<Posting>, a: Id)
    ensures a in Accounts(ps) <==> exists p :: p in ps && p.account == a
  {
  }

  lemma MirrorAccounts(r: Transaction, t: Transaction)
    requires Undoes(r, t)
    ensures Accounts(r.entry.postings) == Accounts(t.entry.postings)
  {
    var ps, qs := t.entry.postings, r.entry.postings;
    forall a ensures a in Accounts(ps) <==> a in Accounts(qs) {
      InAccounts(ps, a);
      InAccounts(qs, a);
      if i :| 0 <= i < |ps| && ps[i].account == a { assert Mirrors(ps[i], qs[i]); }
      if i :| 0 <= i < |qs| && qs[i].account == a { assert Mirrors(ps[i], qs[i]); }
    }
  }

  /** The mirror of a logged transaction is inserted and tested as the original's own accounts decide. */
  lemma MirrorConditions(s: Store, c: ReverseCommand, k: nat, t: Transaction, r: Transaction, now: Time)
    requires LedgerInv(s) && k < |s.log| && Constructed(t) && SameUpToOrder(t, s.log[k]) && Undoes(r, t)
    requires s.log[k].id == c.originalId == t.id && r.id == c.newId && r.entry.id == c.newEntryId
    requires |c.newPostingIds| == |r.entry.postings|
    requires forall i :: 0 <= i < |c.newPostingIds| ==> r.entry.postings[i].id == c.newPostingIds[i]
    ensures StaysInWord(s, r, now) <==> MirrorStaysInWord(s, s.log[k], now)
    ensures Trim(c.key) !in s.keys ==> (Insertable(s, r, Trim(c.key)) <==> MirrorInsertable(s, c))
  {
    hide SoundRows, KeysMatchLog, OutboxComplete, DistinctHolds, Booked, ActiveHolds, Trim, Constructed, HasPosting,
         HasEntry, HasReversalOf, Available, Delta, Undoes, Accounts;
    MirrorAccounts(r, t);
    MultisetAccounts(t.entry.postings, s.log[k].entry.postings);
    assert Accounts(r.entry.postings) == Accounts(s.log[k].entry.postings) <= s.accounts;
    forall a ensures Delta(r.entry.postings, a) == -Delta(s.log[k].entry.postings, a) {
      ReversalDelta(s.log[k], t, r, a);
    }
    assert HasTransaction(s, c.originalId);
    assert r.reverses == Some(c.originalId) by { UndoesNames(r, t); }
    assert DistinctIds(r.entry.postings) <==> Distinct(c.newPostingIds);
  }

  class ReverseTransactionUseCase {
    const ledger: TransactionRepository

    constructor (ledger: TransactionRepository)
      ensures this.ledger == ledger
    {
      this.ledger := ledger;
    }

    /** A refused reversal changes nothing. One that commits is a new transaction that undoes the original,
        which is not a reversal, and takes every account's balance back by what the original moved it.
        Reversing the original can fail only for the reasons the command itself shows. */
    method Execute(c: ReverseCommand, now: Time) returns (r: Result<Transaction, ReverseFailure>)
      requires ledger.db.Valid()
      modifies ledger.db
      ensures ledger.db.Valid()
      ensures r.Err? ==> ledger.db.View() == old(ledger.db.View())
      ensures r == Err(EmptyIdempotencyKey) <==> Trim(c.key) == ""
      ensures r == Err(EmptyRequestHash) <==> Trim(c.key) != "" && Trim(c.hash) == ""
      ensures r == Err(InvalidOriginalId) <==> Trim(c.key) != "" && Trim(c.hash) != "" && c.originalId == 0
      ensures r == Err(UnknownOriginal) <==>
              && Trim(c.key) != "" && Trim(c.hash) != "" && c.originalId != 0
              && !HasTransaction(old(ledger.db.View()), c.originalId)
      ensures r.Ok? ==> Constructed(r.value) && r.value.id == c.newId && r.value.reverses == Some(c.originalId)
      ensures r.Ok? ==>
                var s, key, hash := old(ledger.db.View()), Trim(c.key), Trim(c.hash);
                if key in s.keys
                then s.keys[key] == KeyRow(hash, c.newId) && ledger.db.View() == s
                else ledger.db.View() == Insert(s, r.value, key, hash)
      ensures forall k :: 0 <= k < |old(ledger.db.log)| && old(ledger.db.log)[k].id == c.originalId ==>
                var original, s := old(ledger.db.log)[k], old(ledger.db.View());
                var good := Trim(c.key) != "" && Trim(c.hash) != "" && c.originalId != 0;
                && (r.Err? && r.error.NotReversible? <==> good && !Reversible(c, original))
                && (r.Err? && r.error.NotReversible? ==> r.error.error == ReversalFault(c, original))
                && (good && Reversible(c, original) && NonNegative(s, now) ==>
                      AnswersReversal(r, s, c, original, now))
                && (r.Ok? ==> Reversible(c, original))
                && (r.Ok? && Trim(c.key) !in s.keys ==> TakenBack(s, ledger.db.View(), original))
      ensures OriginalsReversed(old(ledger.db.log)) ==> OriginalsReversed(ledger.db.log)
    {
      hide LedgerInv, Constructed, ValidTransaction, SameUpToOrder, OrderedById, Undoes, OriginalsReversed, Trim,
           Apply64, NonNegative, AnswersReversal, TakenBack, Insert;
      ghost var s := ledger.db.View();
      var key, hash := Trim(c.key), Trim(c.hash);
      if key == "" { return Err(EmptyIdempotencyKey); }
      if hash == "" { return Err(EmptyRequestHash); }
      if c.originalId == 0 { return Err(InvalidOriginalId); }
      var read := ledger.GetAggregate(c.originalId);
      if read.Err? { return Err(UnknownOriginal); }
      var original := read.value;
      ghost var k: nat :| k < |s.log| && s.log[k].id == c.originalId;
      OriginalFacts(s, original, k);
      var reversed := Reverse(original, c.newId, c.newEntryId, c.newPostingIds, c.description);
      if reversed.Err? { return Err(NotReversible(reversed.error)); }
      UndoesNames(reversed.value, original);
      ReversalPosted(s, c, k, original, reversed.value, now);
      var verdict := ledger.Post(reversed.value, key, hash, now);
      if verdict.Refused? { return Err(PostRefused(verdict.refusal)); }
      return Ok(reversed.value);
    }
  }

  /** What posting the mirror of a logged transaction does and answers. */
  lemma ReversalPosted(s: Store, c: ReverseCommand, k: nat, t: Transaction, r: Transaction, now: Time)
    requires LedgerInv(s) && k < |s.log| && Constructed(t) && SameUpToOrder(t, s.log[k]) && Undoes(r, t)
    requires s.log[k].id == c.originalId == t.id && r.id == c.newId && r.entry.id == c.newEntryId && Constructed(r)
    requires |c.newPostingIds| == |r.entry.postings| && s.log[k].reverses == None
    requires forall i :: 0 <= i < |c.newPostingIds| ==> r.entry.postings[i].id == c.newPostingIds[i]
    ensures var key, hash := Trim(c.key), Trim(c.hash);
            var outcome := Apply64(s, Post(r, key, hash), Clock(now, now));
            var answer := if outcome.verdict.Refused? then Err(PostRefused(outcome.verdict.refusal)) else Ok(r);
            && (NonNegative(s, now) ==> AnswersReversal(answer, s, c, s.log[k], now))
            && (outcome.verdict.Refused? ==> outcome.store == s)
            && (!outcome.verdict.Refused? ==>
                  if key in s.keys then s.keys[key] == KeyRow(hash, c.newId) && outcome.store == s
                  else outcome.store == Insert(s, r, key, hash) && TakenBack(s, outcome.store, s.log[k]))
            && (OriginalsReversed(s.log) ==> OriginalsReversed(outcome.store.log))
  {
    hide LedgerInv, Constructed, Fits64, Insertable, SameUpToOrder, LedgerBalance, Delta, Undoes, OriginalsReversed,
         Trim, CheckKey, Apply64, MirrorInsertable, MirrorStaysInWord, NonNegative, StaysInWord;
    var key, hash := Trim(c.key), Trim(c.hash);
    PostAnswers(s, r, key, hash, now);
    if NonNegative(s, now) {
      SoundFromLedger(s);
      PostGrantedIff(s, r, key, hash, now);
      MirrorConditions(s, c, k, t, r, now);
    }
    if Apply64(s, Post(r, key, hash), Clock(now, now)).verdict == Done {
      forall a: Id
        ensures LedgerBalance(Insert(s, r, key, hash), a) == LedgerBalance(s, a) - Delta(s.log[k].entry.postings, a)
      {
        InsertMoves(s, r, key, hash, a, now);
        ReversalDelta(s.log[k], t, r, a);
      }
      if OriginalsReversed(s.log) {
        UndoesNames(r, t);
        assert AimsAtOriginal(s.log, r);
        OriginalsStayReversed(s.log, r);
      }
    }
  }

  lemma PostAnswers(s: Store, tx: Transaction, key: string, hash: string, now: Time)
    ensures var outcome := Apply64(s, Post(tx, key, hash), Clock(now, now));
            && (outcome.verdict == Replayed ==> key in s.keys && s.keys[key] == KeyRow(hash, tx.id))
            && (outcome.verdict == Done ==> key !in s.keys && outcome.store == Insert(s, tx, key, hash))
            && (outcome.verdict != Done ==> outcome.store == s)
  {
    hide Insertable, Fits64, Insert;
  }

  lemma OriginalFacts(s: Store, t: Transaction, k: nat)
    requires LedgerInv(s) && k < |s.log| && SameUpToOrder(t, s.log[k]) && Constructed(t)
    ensures ValidTransaction(t) && t.id == s.log[k].id && t.reverses == s.log[k].reverses
    ensures |t.entry.postings| == |s.log[k].entry.postings|
    ensures forall i :: 0 <= i < |s.log| && s.log[i].id == s.log[k].id ==> i == k
  {
    assert |multiset(t.entry.postings)| == |t.entry.postings|;
    assert |multiset(s.log[k].entry.postings)| == |s.log[k].entry.postings|;
    assert t.(entry := t.entry.(postings := [])).reverses ==
           s.log[k].(entry := s.log[k].entry.(postings := [])).reverses;
    assert t.(entry := t.entry.(postings := [])).id == s.log[k].(entry := s.log[k].entry.(postings := [])).id;
    OnlyOne(s, k);
  }

  lemma UndoesNames(r: Transaction, t: Transaction)
    requires Undoes(r, t)
    ensures r.reverses == Some(t.id)
  {
  }
}
