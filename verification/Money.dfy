/** Amounts in integer minor units on a 64-bit machine word. */
module Money {
  import opened Prelude

  const MAX_INT64: int := 0x7FFF_FFFF_FFFF_FFFF
  const MIN_INT64: int := -0x8000_0000_0000_0000
  const TWO_TO_THE_64: int := 0x1_0000_0000_0000_0000

  type int64 = x: int | MIN_INT64 <= x <= MAX_INT64

  datatype DomainError =
    | InvalidId
    | InvalidCurrency
    | CurrencyMismatch
    | AmountMustNotBeNegative
    | AmountMustBePositive
    | AmountOverflow
    | InvalidPostingDirection
    | EntryWithoutPostings
    | EntryWithoutDebit
    | EntryWithoutCredit
    | UnbalancedEntry
    | EmptyDescription
    | EntryMismatch
    | CannotReverseReversal
    | ReversalSameTransactionId
    | InvalidReversalPostingIdCount

  /** The value a 64-bit two's complement register holds after an operation whose true result is x. */
  function Wrap(x: int): (r: int64)
    ensures exists k: int :: r == x + k * TWO_TO_THE_64
  {
    var r := (x - MIN_INT64) % TWO_TO_THE_64 + MIN_INT64;
    assert r == x + (-((x - MIN_INT64) / TWO_TO_THE_64)) * TWO_TO_THE_64;
    r
  }

  /** The register is determined by congruence: any in-range value congruent to x is Wrap(x). */
  lemma WrapUnique(x: int, r: int64, k: int)
    requires r == x + k * TWO_TO_THE_64
    ensures Wrap(x) == r
  {
    var j: int :| Wrap(x) == x + j * TWO_TO_THE_64;
    assert Wrap(x) - r == (j - k) * TWO_TO_THE_64;
  }

  /** Adding register by register gives the same register as one exact sum. */
  lemma WrapSum(x: int, y: int)
    ensures Wrap(Wrap(x) + y) == Wrap(x + y)
  {
    var k: int :| Wrap(x) == x + k * TWO_TO_THE_64;
    var j: int :| Wrap(x + y) == (x + y) + j * TWO_TO_THE_64;
    assert Wrap(x + y) == (Wrap(x) + y) + (j - k) * TWO_TO_THE_64;
    WrapUnique(Wrap(x) + y, Wrap(x + y), j - k);
  }

  /** Within one modulus of the word, the sign test on the register is right exactly on the window
      [-2^63, 2^63): above it the register turns negative, below it the register turns non-negative. */
  lemma WrapSign(x: int)
    requires -TWO_TO_THE_64 <= x < TWO_TO_THE_64
    ensures Wrap(x) >= 0 <==> 0 <= x <= MAX_INT64 || x < MIN_INT64
  {
    if x > MAX_INT64 {
      WrapUnique(x, x - TWO_TO_THE_64, -1);
    } else if x < MIN_INT64 {
      WrapUnique(x, x + TWO_TO_THE_64, 1);
    } else {
      WrapUnique(x, x, 0);
    }
  }

  predicate ValidCurrency(code: string) {
    |code| == 3 && forall i :: 0 <= i < 3 ==> 'A' <= code[i] <= 'Z'
  }

  datatype Money = Money(currency: string, amount: int64) {

    function Validate(): (r: Result<(), DomainError>)
      ensures r.Ok? <==> Valid()
      ensures r == Err(InvalidCurrency) <==> !ValidCurrency(currency)
      ensures r == Err(AmountMustNotBeNegative) <==> ValidCurrency(currency) && amount < 0
    {
      if !ValidCurrency(currency) then Err(InvalidCurrency)
      else if amount < 0 then Err(AmountMustNotBeNegative)
      else Ok(())
    }

    predicate Valid() {
      ValidCurrency(currency) && amount >= 0
    }

    /** Checked addition: it succeeds exactly when both operands are valid, the currencies agree and the
        mathematical sum fits; the subtraction in the overflow guard is itself exact on valid operands. */
    function Add(other: Money): (r: Result<Money, DomainError>)
      ensures r.Ok? <==> Valid() && other.Valid() && currency == other.currency && amount + other.amount <= MAX_INT64
      ensures r.Ok? ==> r.value == Money(currency, amount + other.amount) && r.value.Valid()
      ensures r == Err(AmountOverflow) <==>
              Valid() && other.Valid() && currency == other.currency && amount + other.amount > MAX_INT64
      ensures r == Err(CurrencyMismatch) <==> Valid() && other.Valid() && currency != other.currency
    {
      match Validate()
      case Err(e) => Err(e)
      case Ok(_) =>
        match other.Validate()
        case Err(e) => Err(e)
        case Ok(_) =>
          if currency != other.currency then Err(CurrencyMismatch)
          else if Wrap(MAX_INT64 - amount) < other.amount then
            WrapUnique(MAX_INT64 - amount, MAX_INT64 - amount, 0);
            Err(AmountOverflow)
          else
            WrapUnique(MAX_INT64 - amount, MAX_INT64 - amount, 0);
            Ok(Money(currency, amount + other.amount))
    }
  }

  function NewMoney(currency: string, amount: int64): Result<Money, DomainError> {
    var m := Money(currency, amount);
    match m.Validate()
    case Err(e) => Err(e)
    case Ok(_) => Ok(m)
  }
}
