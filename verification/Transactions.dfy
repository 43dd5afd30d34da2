/** The transaction aggregate: one balanced journal entry, possibly reversing an earlier transaction. */
module Transactions {
  import opened Prelude
  import opened Money
  import opened Journal

  datatype Transaction = Transaction(id: Id, description: string, entry: JournalEntry, reverses: Option<Id>)

  predicate IsSpace(c: char) {
    c in {' ', '\t', '\n', '\U{000B}', '\U{000C}', '\r', '\U{0085}', '\U{00A0}', '\U{1680}', '\U{2028}', '\U{2029}',
          '\U{202F}', '\U{205F}', '\U{3000}'} || '\U{2000}' <= c <= '\U{200A}'
  }

  function TrimLeft(s: string): (r: string)
    ensures r == "" || !IsSpace(r[0])
  {
    if s != "" && IsSpace(s[0]) then TrimLeft(s[1..]) else s
  }

  function TrimRight(s: string): (r: string)
    ensures r <= s
    ensures r == "" || !IsSpace(r[|r| - 1])
  {
    if s != "" && IsSpace(s[|s| - 1]) then TrimRight(s[..|s| - 1]) else s
  }

  /** Leading and trailing white space removed. */
  function Trim(s: string): (r: string)
    ensures r == "" || (!IsSpace(r[0]) && !IsSpace(r[|r| - 1]))
  {
    TrimRight(TrimLeft(s))
  }

  lemma TrimIdempotent(s: string)
    ensures Trim(Trim(s)) == Trim(s)
  {
  }

  predicate ValidTransaction(t: Transaction) {
    && t.id != 0
    && t.description != ""
    && ValidEntry(t.entry)
    && t.entry.transactionId == t.id
    && t.reverses != Some(0)
    && t.reverses != Some(t.id)
  }

  /** What the constructors hand out: a valid transaction whose description carries no outer white space. */
  predicate Constructed(t: Transaction) {
    ValidTransaction(t) && Trim(t.description) == t.description
  }

  method Validate(t: Transaction) returns (r: Result<(), DomainError>)
    ensures r.Ok? <==> ValidTransaction(t)
    ensures r.Err? ==> r.error == if t.id == 0 then InvalidId
                                  else if t.description == "" then EmptyDescription
                                  else if EntryVerdict(t.entry).Err? then EntryVerdict(t.entry).error
                                  else if t.entry.transactionId != t.id then EntryMismatch
                                  else if t.reverses == Some(0) then InvalidId else ReversalSameTransactionId
  {
    if t.id == 0 { return Err(InvalidId); }
    if t.description == "" { return Err(EmptyDescription); }
    var entry := ValidateEntry(t.entry);
    if entry.Err? { return entry; }
    if t.entry.transactionId != t.id { return Err(EntryMismatch); }
    if t.reverses.Some? {
      if t.reverses.value == 0 { return Err(InvalidId); }
      if t.reverses.value == t.id { return Err(ReversalSameTransactionId); }
    }
    return Ok(());
  }

  method NewTransaction(id: Id, description: string, entry: JournalEntry)
    returns (r: Result<Transaction, DomainError>)
    ensures r.Ok? <==> id != 0 && Trim(description) != "" && ValidEntry(entry) && entry.transactionId == id
    ensures r.Ok? ==> Constructed(r.value) && r.value == Transaction(id, Trim(description), entry, None)
  {
    r := Reconstitute(id, description, entry, None);
  }

  /** Rebuilding a constructed transaction from its own parts gives it back unchanged. */
  method Reconstitute(id: Id, description: string, entry: JournalEntry, reverses: Option<Id>)
    returns (r: Result<Transaction, DomainError>)
    ensures r.Ok? <==> ValidTransaction(Transaction(id, Trim(description), entry, reverses))
    ensures r.Err? && id != 0 && Trim(description) == "" ==> r.error == EmptyDescription
    ensures r.Ok? ==> Constructed(r.value) && r.value == Transaction(id, Trim(description), entry, reverses)
  {
    var t := Transaction(id, Trim(description), entry, reverses);
    TrimIdempotent(description);
    var verdict := Validate(t);
    if verdict.Err? { return Err(verdict.error); }
    return Ok(t);
  }

  /** A posting mirrored under a new id: same account and amount, opposite side. */
  predicate Mirrors(p: Posting, q: Posting) {
    q.account == p.account && q.amount == p.amount && q.direction == p.direction.Opposite()
  }

  /** r undoes t: it names t and mirrors every posting of t, in order. */
  predicate Undoes(r: Transaction, t: Transaction) {
    && r.reverses == Some(t.id)
    && |r.entry.postings| == |t.entry.postings|
    && forall i :: 0 <= i < |t.entry.postings| ==> Mirrors(t.entry.postings[i], r.entry.postings[i])
  }

  lemma {:induction false} MirroredSides(ps: seq<Posting>, qs: seq<Posting>, currency: string, a: Id)
    requires |ps| == |qs| && AllValid(ps, currency)
    requires forall i :: 0 <= i < |ps| ==> Mirrors(ps[i], qs[i])
    ensures Total(qs, Debit) == Total(ps, Credit) && Total(qs, Credit) == Total(ps, Debit)
    ensures Side(qs, a, Debit) == Side(ps, a, Credit) && Side(qs, a, Credit) == Side(ps, a, Debit)
  {
    if ps != [] {
      var n := |ps| - 1;
      assert Mirrors(ps[n], qs[n]);
      MirroredSides(ps[..n], qs[..n], currency, a);
    }
  }

  /** Posting a transaction and its reversal leaves every account where it was. */
  lemma ReversalCancels(t: Transaction, r: Transaction, a: Id)
    requires ValidTransaction(t) && Undoes(r, t)
    ensures Delta(t.entry.postings + r.entry.postings, a) == 0
  {
    MirroredSides(t.entry.postings, r.entry.postings, t.entry.currency, a);
    SideConcat(t.entry.postings, r.entry.postings, a, Debit);
    SideConcat(t.entry.postings, r.entry.postings, a, Credit);
  }

  /** Reversal of a valid transaction succeeds exactly when it is not itself a reversal, the new ids are
      present, one per posting and different from the original's, and the description is not blank.
      Nothing else can go wrong: mirroring swaps two equal totals, so no sum overflows or unbalances. */
  method Reverse(t: Transaction, newId: Id, newEntryId: Id, newPostingIds: seq<Id>, description: string)
    returns (r: Result<Transaction, DomainError>)
    ensures r.Ok? <==>
            && ValidTransaction(t) && t.reverses == None
            && newId != 0 && newEntryId != 0 && newId != t.id
            && |newPostingIds| == |t.entry.postings| && 0 !in newPostingIds
            && Trim(description) != ""
    ensures r.Err? && ValidTransaction(t) ==>
              r.error == if t.reverses.Some? then CannotReverseReversal
                         else if newId == 0 || newEntryId == 0 then InvalidId
                         else if newId == t.id then ReversalSameTransactionId
                         else if |newPostingIds| != |t.entry.postings| then InvalidReversalPostingIdCount
                         else if 0 in newPostingIds then InvalidId else EmptyDescription
    ensures r.Ok? ==>
            && Constructed(r.value) && Undoes(r.value, t)
            && r.value.id == newId && r.value.entry.id == newEntryId && r.value.description == Trim(description)
            && (forall i :: 0 <= i < |newPostingIds| ==> r.value.entry.postings[i].id == newPostingIds[i])
  {
    var verdict := Validate(t);
    if verdict.Err? { return Err(verdict.error); }
    if t.reverses.Some? { return Err(CannotReverseReversal); }
    if newId == 0 || newEntryId == 0 { return Err(InvalidId); }
    if newId == t.id { return Err(ReversalSameTransactionId); }
    var original := t.entry.postings;
    if |newPostingIds| != |original| { return Err(InvalidReversalPostingIdCount); }
    var reversed: seq<Posting> := [];
    for i := 0 to |original|
      invariant |reversed| == i
      invariant 0 !in newPostingIds[..i]
      invariant AllValid(reversed, t.entry.currency)
      invariant forall k :: 0 <= k < i ==> Mirrors(original[k], reversed[k]) && reversed[k].id == newPostingIds[k]
    {
      assert newPostingIds[i] in newPostingIds;
      if newPostingIds[i] == 0 { return Err(InvalidId); }
      var p := Posting(newPostingIds[i], original[i].account, original[i].direction.Opposite(), original[i].amount);
      var ok := p.Validate();
      assert original[i].Valid();
      if ok.Err? { assert false; }
      reversed := reversed + [p];
    }
    assert newPostingIds[..|newPostingIds|] == newPostingIds;
    var entry := JournalEntry(newEntryId, newId, t.entry.currency, reversed);
    MirroredEntryValid(t.entry, entry);
    var entryVerdict := ValidateEntry(entry);
    if entryVerdict.Err? { assert false; }
    r := Reconstitute(newId, description, entry, Some(t.id));
  }

  lemma MirroredEntryValid(j: JournalEntry, k: JournalEntry)
    requires ValidEntry(j) && k.id != 0 && k.transactionId != 0 && k.currency == j.currency
    requires AllValid(k.postings, k.currency) && |k.postings| == |j.postings|
    requires forall i :: 0 <= i < |j.postings| ==> Mirrors(j.postings[i], k.postings[i])
    ensures ValidEntry(k)
  {
    MirroredSides(j.postings, k.postings, j.currency, 0);
    var debit :| 0 <= debit < |j.postings| && j.postings[debit].direction == Debit;
    assert Mirrors(j.postings[debit], k.postings[debit]);
    var credit :| 0 <= credit < |j.postings| && j.postings[credit].direction == Credit;
    assert Mirrors(j.postings[credit], k.postings[credit]);
  }
}
