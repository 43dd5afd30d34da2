/** Postings and balanced journal entries. */
module Journal {
  import opened Prelude
  import opened Money

  /** Other stands for any direction text that is neither of the two legal ones. */
  datatype Direction = Debit | Credit | Other {
    function Opposite(): Direction {
      match this
      case Debit => Credit
      case Credit => Debit
      case Other => Other
    }
  }

  datatype Posting = Posting(id: Id, account: Id, direction: Direction, amount: Money) {

    function Validate(): (r: Result<(), DomainError>)
      ensures r.Ok? <==> Valid()
      ensures r == Err(InvalidId) <==> id == 0 || account == 0
      ensures r == Err(InvalidPostingDirection) <==> id != 0 && account != 0 && direction == Other
      ensures r == Err(AmountMustBePositive) <==>
              id != 0 && account != 0 && direction != Other && amount.Valid() && amount.amount == 0
      ensures id != 0 && account != 0 && direction != Other && !amount.Valid() ==> r == amount.Validate()
    {
      if id == 0 then Err(InvalidId)
      else if account == 0 then Err(InvalidId)
      else if direction == Other then Err(InvalidPostingDirection)
      else match amount.Validate()
        case Err(e) => Err(e)
        case Ok(_) => if amount.amount == 0 then Err(AmountMustBePositive) else Ok(())
    }

    predicate Valid() {
      id != 0 && account != 0 && direction != Other && amount.Valid() && amount.amount > 0
    }
  }

  datatype JournalEntry = JournalEntry(id: Id, transactionId: Id, currency: string, postings: seq<Posting>)

  /** Exact sum of the amounts on one side. */
  function Total(ps: seq<Posting>, d: Direction): int {
    if ps == [] then 0
    else Total(ps[..|ps| - 1], d) + if ps[|ps| - 1].direction == d then ps[|ps| - 1].amount.amount else 0
  }

  /** Exact sum of the amounts on one side of one account. */
  function Side(ps: seq<Posting>, account: Id, d: Direction): int {
    if ps == [] then 0
    else
      var p := ps[|ps| - 1];
      Side(ps[..|ps| - 1], account, d) + if p.account == account && p.direction == d then p.amount.amount else 0
  }

  /** Signed effect of the postings on one account: credits raise it, debits lower it. */
  function Delta(ps: seq<Posting>, account: Id): int {
    Side(ps, account, Credit) - Side(ps, account, Debit)
  }

  predicate AllValid(ps: seq<Posting>, currency: string) {
    forall i :: 0 <= i < |ps| ==> ps[i].Valid() && ps[i].amount.currency == currency
  }

  function Accounts(ps: seq<Posting>): set<Id> {
    set i | 0 <= i < |ps| :: ps[i].account
  }

  predicate HasSide(ps: seq<Posting>, d: Direction) {
    exists i :: 0 <= i < |ps| && ps[i].direction == d
  }

  /** What a valid entry is: every posting is valid in the entry's currency, both sides are present,
      and the two exact totals agree and fit the machine word. */
  predicate ValidEntry(j: JournalEntry) {
    && j.id != 0
    && j.transactionId != 0
    && ValidCurrency(j.currency)
    && AllValid(j.postings, j.currency)
    && HasSide(j.postings, Debit)
    && HasSide(j.postings, Credit)
    && Total(j.postings, Debit) == Total(j.postings, Credit) <= MAX_INT64
  }

  /** Register-by-register sum of one side, stopping at the first failing addition. */
  function CheckedSum(currency: string, ps: seq<Posting>, d: Direction): Result<Money, DomainError> {
    if ps == [] then NewMoney(currency, 0)
    else
      match CheckedSum(currency, ps[..|ps| - 1], d)
      case Err(e) => Err(e)
      case Ok(total) => if ps[|ps| - 1].direction == d then total.Add(ps[|ps| - 1].amount) else Ok(total)
  }

  lemma {:induction false} CheckedSumFails(currency: string, ps: seq<Posting>, d: Direction, i: nat)
    requires i <= |ps| && CheckedSum(currency, ps[..i], d).Err?
    ensures CheckedSum(currency, ps, d) == CheckedSum(currency, ps[..i], d)
  {
    if i == |ps| {
      assert ps[..i] == ps;
    } else {
      assert ps[..|ps| - 1][..i] == ps[..i];
      CheckedSumFails(currency, ps[..|ps| - 1], d, i);
    }
  }

  /** Amounts are non-negative, so the checked sum reports an overflow exactly when the exact total
      does not fit; the order in which postings are added cannot matter. */
  lemma {:induction false} CheckedSumExact(currency: string, ps: seq<Posting>, d: Direction)
    requires ValidCurrency(currency) && AllValid(ps, currency)
    ensures Total(ps, d) >= 0
    ensures CheckedSum(currency, ps, d) ==
            if Total(ps, d) <= MAX_INT64 then Ok(Money(currency, Total(ps, d))) else Err(AmountOverflow)
  {
    if ps != [] {
      CheckedSumExact(currency, ps[..|ps| - 1], d);
    }
  }

  /** The loop of TotalDebits and TotalCredits. */
  method SumSide(j: JournalEntry, d: Direction) returns (r: Result<Money, DomainError>)
    ensures r == CheckedSum(j.currency, j.postings, d)
  {
    var zero := NewMoney(j.currency, 0);
    if zero.Err? {
      CheckedSumFails(j.currency, j.postings, d, 0);
      return zero;
    }
    var total := zero.value;
    for i := 0 to |j.postings|
      invariant CheckedSum(j.currency, j.postings[..i], d) == Ok(total)
    {
      assert j.postings[..i + 1][..i] == j.postings[..i];
      if j.postings[i].direction == d {
        var sum := total.Add(j.postings[i].amount);
        if sum.Err? {
          CheckedSumFails(j.currency, j.postings, d, i + 1);
          return sum;
        }
        total := sum.value;
      }
    }
    assert j.postings[..|j.postings|] == j.postings;
    return Ok(total);
  }

  /** First fault met when the postings are read in order. */
  function Scan(currency: string, ps: seq<Posting>): Result<(), DomainError> {
    if ps == [] then Ok(())
    else
      match Scan(currency, ps[..|ps| - 1])
      case Err(e) => Err(e)
      case Ok(_) =>
        match ps[|ps| - 1].Validate()
        case Err(e) => Err(e)
        case Ok(_) => if ps[|ps| - 1].amount.currency != currency then Err(CurrencyMismatch) else Ok(())
  }

  lemma {:induction false} ScanFails(currency: string, ps: seq<Posting>, i: nat)
    requires i <= |ps| && Scan(currency, ps[..i]).Err?
    ensures Scan(currency, ps) == Scan(currency, ps[..i])
  {
    if i == |ps| {
      assert ps[..i] == ps;
    } else {
      assert ps[..|ps| - 1][..i] == ps[..i];
      ScanFails(currency, ps[..|ps| - 1], i);
    }
  }

  lemma {:induction false} ScanAccepts(currency: string, ps: seq<Posting>)
    ensures Scan(currency, ps).Ok? <==> AllValid(ps, currency)
  {
    if ps != [] {
      var init, last := ps[..|ps| - 1], ps[|ps| - 1];
      ScanAccepts(currency, init);
      PostingAcceptedIffValid(last);
      assert AllValid(ps, currency) ==> AllValid(init, currency);
    }
  }

  lemma PostingAcceptedIffValid(p: Posting)
    ensures p.Validate().Ok? <==> p.Valid()
  {
  }

  function Balance(j: JournalEntry): Result<bool, DomainError> {
    match CheckedSum(j.currency, j.postings, Debit)
    case Err(e) => Err(e)
    case Ok(debits) =>
      match CheckedSum(j.currency, j.postings, Credit)
      case Err(e) => Err(e)
      case Ok(credits) => Ok(debits == credits)
  }

  method IsBalanced(j: JournalEntry) returns (r: Result<bool, DomainError>)
    ensures r == Balance(j)
  {
    var debits := SumSide(j, Debit);
    if debits.Err? { return Err(debits.error); }
    var credits := SumSide(j, Credit);
    if credits.Err? { return Err(credits.error); }
    return Ok(debits.value == credits.value);
  }

  /** The verdict on an entry, faults in the order the code reports them. */
  function EntryVerdict(j: JournalEntry): Result<(), DomainError> {
    if j.id == 0 || j.transactionId == 0 then Err(InvalidId)
    else if !ValidCurrency(j.currency) then Err(InvalidCurrency)
    else if j.postings == [] then Err(EntryWithoutPostings)
    else match Scan(j.currency, j.postings)
      case Err(e) => Err(e)
      case Ok(_) =>
        if !HasSide(j.postings, Debit) then Err(EntryWithoutDebit)
        else if !HasSide(j.postings, Credit) then Err(EntryWithoutCredit)
        else match Balance(j)
          case Err(e) => Err(e)
          case Ok(balanced) => if balanced then Ok(()) else Err(UnbalancedEntry)
  }

  /** An entry is accepted exactly when it is valid; an overflowing side is never accepted as balanced. */
  lemma EntryAcceptedIffValid(j: JournalEntry)
    ensures EntryVerdict(j).Ok? <==> ValidEntry(j)
  {
    ScanAccepts(j.currency, j.postings);
    if ValidCurrency(j.currency) && AllValid(j.postings, j.currency) {
      CheckedSumExact(j.currency, j.postings, Debit);
      CheckedSumExact(j.currency, j.postings, Credit);
    }
  }

  lemma {:induction false} FirstBadPosting(currency: string, ps: seq<Posting>, i: nat)
    requires i < |ps| && AllValid(ps[..i], currency) && !(ps[i].Valid() && ps[i].amount.currency == currency)
    ensures Scan(currency, ps) == if ps[i].Valid() then Err(CurrencyMismatch) else ps[i].Validate()
  {
    ScanAccepts(currency, ps[..i]);
    assert ps[..i + 1][..i] == ps[..i];
    PostingAcceptedIffValid(ps[i]);
    ScanFails(currency, ps, i + 1);
  }

  /** Which fault an entry is refused for: first its own ids and currency, then the first bad posting, then a missing
      side, and last the totals. */
  lemma {:induction false} EntryFaults(j: JournalEntry, i: nat)
    ensures var v, ps := EntryVerdict(j), j.postings;
            if j.id == 0 || j.transactionId == 0 then v == Err(InvalidId)
            else if !ValidCurrency(j.currency) then v == Err(InvalidCurrency)
            else if ps == [] then v == Err(EntryWithoutPostings)
            else
              && (i < |ps| && AllValid(ps[..i], j.currency) && !ps[i].Valid() ==> v == ps[i].Validate())
              && (i < |ps| && AllValid(ps[..i], j.currency) && ps[i].Valid() && ps[i].amount.currency != j.currency ==>
                    v == Err(CurrencyMismatch))
              && (AllValid(ps, j.currency) ==>
                    v == if !HasSide(ps, Debit) then Err(EntryWithoutDebit)
                         else if !HasSide(ps, Credit) then Err(EntryWithoutCredit)
                         else if Total(ps, Debit) > MAX_INT64 || Total(ps, Credit) > MAX_INT64 then Err(AmountOverflow)
                         else if Total(ps, Debit) != Total(ps, Credit) then Err(UnbalancedEntry)
                         else Ok(()))
  {
    var ps := j.postings;
    if ValidCurrency(j.currency) && i < |ps| && AllValid(ps[..i], j.currency) &&
       !(ps[i].Valid() && ps[i].amount.currency == j.currency) {
      FirstBadPosting(j.currency, ps, i);
    }
    ScanAccepts(j.currency, ps);
    if ValidCurrency(j.currency) && AllValid(ps, j.currency) {
      CheckedSumExact(j.currency, ps, Debit);
      CheckedSumExact(j.currency, ps, Credit);
    }
  }

  lemma NothingScanned(currency: string)
    ensures Scan(currency, []).Ok? && forall d :: !HasSide([], d)
  {
  }

  lemma ScanNext(currency: string, ps: seq<Posting>, i: nat)
    requires i < |ps| && Scan(currency, ps[..i]).Ok?
    ensures Scan(currency, ps[..i + 1]) ==
            if ps[i].Validate().Err? then ps[i].Validate()
            else if ps[i].amount.currency != currency then Err(CurrencyMismatch) else Ok(())
  {
    assert ps[..i + 1][..i] == ps[..i];
  }

  lemma NextSide(ps: seq<Posting>, i: nat, d: Direction)
    requires i < |ps|
    ensures HasSide(ps[..i + 1], d) <==> HasSide(ps[..i], d) || ps[i].direction == d
  {
    assert ps[..i + 1] == ps[..i] + [ps[i]];
    if ps[i].direction == d { assert ps[..i + 1][i].direction == d; }
    if k :| 0 <= k < i && ps[..i][k].direction == d { assert ps[..i + 1][k].direction == d; }
  }

  method ValidateEntry(j: JournalEntry) returns (r: Result<(), DomainError>)
    ensures r == EntryVerdict(j)
    ensures r.Ok? <==> ValidEntry(j)
  {
    hide Scan, ValidEntry, CheckedSum, HasSide;
    EntryAcceptedIffValid(j);
    if j.id == 0 || j.transactionId == 0 { return Err(InvalidId); }
    if !ValidCurrency(j.currency) { return Err(InvalidCurrency); }
    if |j.postings| == 0 { return Err(EntryWithoutPostings); }
    var hasDebit, hasCredit := false, false;
    NothingScanned(j.currency);
    assert j.postings[..0] == [];
    for i := 0 to |j.postings|
      invariant Scan(j.currency, j.postings[..i]).Ok?
      invariant hasDebit <==> HasSide(j.postings[..i], Debit)
      invariant hasCredit <==> HasSide(j.postings[..i], Credit)
    {
      var p := j.postings[i];
      ScanNext(j.currency, j.postings, i);
      NextSide(j.postings, i, Debit);
      NextSide(j.postings, i, Credit);
      var verdict := p.Validate();
      if verdict.Err? {
        ScanFails(j.currency, j.postings, i + 1);
        return verdict;
      }
      if p.amount.currency != j.currency {
        ScanFails(j.currency, j.postings, i + 1);
        return Err(CurrencyMismatch);
      }
      match p.direction
      case Debit => hasDebit := true;
      case Credit => hasCredit := true;
      case Other =>
    }
    assert j.postings[..|j.postings|] == j.postings;
    if !hasDebit { return Err(EntryWithoutDebit); }
    if !hasCredit { return Err(EntryWithoutCredit); }
    var balanced := IsBalanced(j);
    if balanced.Err? { return Err(balanced.error); }
    return if balanced.value then Ok(()) else Err(UnbalancedEntry);
  }

  lemma {:induction false} TotalConcat(ps: seq<Posting>, qs: seq<Posting>, d: Direction)
    ensures Total(ps + qs, d) == Total(ps, d) + Total(qs, d)
  {
    if qs == [] {
      assert ps + qs == ps;
    } else {
      TotalConcat(ps, qs[..|qs| - 1], d);
      assert (ps + qs)[..|ps + qs| - 1] == ps + qs[..|qs| - 1];
    }
  }

  lemma {:induction false} SideConcat(ps: seq<Posting>, qs: seq<Posting>, a: Id, d: Direction)
    ensures Side(ps + qs, a, d) == Side(ps, a, d) + Side(qs, a, d)
  {
    if qs == [] {
      assert ps + qs == ps;
    } else {
      SideConcat(ps, qs[..|qs| - 1], a, d);
      assert (ps + qs)[..|ps + qs| - 1] == ps + qs[..|qs| - 1];
    }
  }

  /** One account's side of any part of the postings is bounded by the whole side. */
  lemma {:induction false} SideBounded(ps: seq<Posting>, currency: string, a: Id, d: Direction, i: nat)
    requires AllValid(ps, currency) && i <= |ps|
    ensures 0 <= Side(ps[..i], a, d) <= Side(ps, a, d) <= Total(ps, d)
  {
    if ps == [] {
    } else if i == |ps| {
      assert ps[..i] == ps;
      SideBounded(ps[..|ps| - 1], currency, a, d, |ps| - 1);
      assert ps[..|ps| - 1][..|ps| - 1] == ps[..|ps| - 1];
    } else {
      assert ps[..|ps| - 1][..i] == ps[..i];
      SideBounded(ps[..|ps| - 1], currency, a, d, i);
    }
  }

  lemma {:induction false} SideUntouched(ps: seq<Posting>, a: Id, d: Direction)
    requires a !in Accounts(ps)
    ensures Side(ps, a, d) == 0
  {
    if ps != [] {
      assert ps[|ps| - 1].account in Accounts(ps);
      assert Accounts(ps[..|ps| - 1]) <= Accounts(ps);
      SideUntouched(ps[..|ps| - 1], a, d);
    }
  }

  lemma RemoveOne(ps: seq<Posting>, k: nat, d: Direction)
    requires k < |ps|
    ensures multiset(Without(ps, k)) == multiset(ps) - multiset{ps[k]}
    ensures Total(ps, d) == Total(Without(ps, k), d) + Total([ps[k]], d)
  {
    assert ps == ps[..k] + ([ps[k]] + ps[k + 1..]);
    TotalConcat(ps[..k], [ps[k]] + ps[k + 1..], d);
    TotalConcat([ps[k]], ps[k + 1..], d);
    TotalConcat(ps[..k], ps[k + 1..], d);
  }

  lemma Shared(ps: seq<Posting>, qs: seq<Posting>) returns (k: nat)
    requires multiset(ps) == multiset(qs) && ps != []
    ensures k < |qs| && qs[k] == ps[0]
  {
    assert ps[0] in multiset(ps);
    assert ps[0] in multiset(qs);
    k :| 0 <= k < |qs| && qs[k] == ps[0];
  }

  /** The totals depend only on which postings there are, not on their order. */
  lemma {:induction false} TotalPermuted(ps: seq<Posting>, qs: seq<Posting>, d: Direction)
    requires multiset(ps) == multiset(qs)
    ensures Total(ps, d) == Total(qs, d)
    decreases |ps|
  {
    if ps == [] {
      assert |multiset(qs)| == |qs|;
    } else {
      var k := Shared(ps, qs);
      RemoveOne(ps, 0, d);
      RemoveOne(qs, k, d);
      TotalPermuted(Without(ps, 0), Without(qs, k), d);
    }
  }

  /** An entry read back with its postings in another order is accepted exactly when the original is. */
  lemma ValidEntryPermuted(j: JournalEntry, k: JournalEntry)
    requires j.(postings := []) == k.(postings := [])
    requires multiset(j.postings) == multiset(k.postings)
    ensures ValidEntry(j) ==> ValidEntry(k)
  {
    TotalPermuted(j.postings, k.postings, Debit);
    TotalPermuted(j.postings, k.postings, Credit);
    if ValidEntry(j) {
      forall i | 0 <= i < |k.postings| ensures k.postings[i].Valid() && k.postings[i].amount.currency == k.currency {
        assert k.postings[i] in multiset(k.postings);
        assert k.postings[i] in j.postings;
      }
      var debit :| 0 <= debit < |j.postings| && j.postings[debit].direction == Debit;
      assert j.postings[debit] in multiset(k.postings);
      var credit :| 0 <= credit < |j.postings| && j.postings[credit].direction == Credit;
      assert j.postings[credit] in multiset(k.postings);
    }
  }

  function Signed(p: Posting): int {
    var amount: int := p.amount.amount;
    if p.direction == Debit then -amount else amount
  }

  /** Reading one more posting moves only its own account, and no partial delta can leave the word. */
  lemma DeltaStep(j: JournalEntry, a: Id, i: nat)
    requires ValidEntry(j) && i < |j.postings|
    ensures Delta(j.postings[..i + 1], a) ==
            Delta(j.postings[..i], a) + if j.postings[i].account == a then Signed(j.postings[i]) else 0
    ensures -MAX_INT64 <= Delta(j.postings[..i + 1], a) <= MAX_INT64
  {
    assert j.postings[..i + 1][..i] == j.postings[..i];
    SideBounded(j.postings, j.currency, a, Debit, i + 1);
    SideBounded(j.postings, j.currency, a, Credit, i + 1);
  }

  lemma DeltaUntouched(ps: seq<Posting>, a: Id)
    requires a !in Accounts(ps)
    ensures Delta(ps, a) == 0
  {
    SideUntouched(ps, a, Debit);
    SideUntouched(ps, a, Credit);
  }

  /** The per-account deltas computed with raw register additions are the exact deltas: the balanced
      totals fit the word, so no partial sum for any account can leave [-MaxInt64, MaxInt64]. */
  method DeltasByAccount(j: JournalEntry) returns (deltas: map<Id, int64>)
    requires ValidEntry(j)
    ensures deltas.Keys == Accounts(j.postings)
    ensures forall a :: a in deltas ==> deltas[a] == Delta(j.postings, a)
  {
    deltas := map[];
    var ps := j.postings;
    for i := 0 to |ps|
      invariant deltas.Keys == Accounts(ps[..i])
      invariant forall a :: a in deltas ==> deltas[a] == Delta(ps[..i], a)
    {
      var p := ps[i];
      var delta: int64 := p.amount.amount;
      if p.direction == Debit {
        delta := Wrap(-delta);
        WrapUnique(-p.amount.amount, -p.amount.amount, 0);
      }
      assert delta == Signed(p);
      var before: int64 := if p.account in deltas then deltas[p.account] else 0;
      if p.account !in deltas {
        DeltaUntouched(ps[..i], p.account);
      }
      forall a ensures Delta(ps[..i + 1], a) == Delta(ps[..i], a) + if p.account == a then delta else 0 {
        DeltaStep(j, a, i);
      }
      DeltaStep(j, p.account, i);
      WrapUnique(before + delta, before + delta, 0);
      deltas := deltas[p.account := Wrap(before + delta)];
      assert Accounts(ps[..i + 1]) == Accounts(ps[..i]) + {p.account} by {
        assert ps[..i + 1] == ps[..i] + [p];
        AccountsAppend(ps[..i], p);
      }
    }
    assert ps[..|ps|] == ps;
  }

  lemma AccountsAppend(ps: seq<Posting>, p: Posting)
    ensures Accounts(ps + [p]) == Accounts(ps) + {p.account}
  {
    var qs := ps + [p];
    forall a | a in Accounts(ps) + {p.account} ensures a in Accounts(qs) {
      if a == p.account {
        assert qs[|ps|].account == a;
      } else {
        var i :| 0 <= i < |ps| && ps[i].account == a;
        assert qs[i].account == a;
      }
    }
  }

  /** The bounds the projected-balance test relies on. */
  lemma DeltaBounded(j: JournalEntry, a: Id)
    requires ValidEntry(j)
    ensures -MAX_INT64 <= Delta(j.postings, a) <= MAX_INT64
  {
    SideBounded(j.postings, j.currency, a, Debit, |j.postings|);
    SideBounded(j.postings, j.currency, a, Credit, |j.postings|);
  }
}
