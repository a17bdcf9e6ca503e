/** The account (Conta): an identifying number, an opaque modality tag and a
    balance held in whole cents, i.e. a BigDecimal kept at scale 2. */
module Accounts {
  import opened Decimals

  /** ModalidadeConta (CC and the others), kept as an opaque tag. */
  datatype Modality = Modality(code: string)

  /** The balance arithmetic of an account: the delta is added exactly and
      the sum is set back to scale 2, rounding half-up. The sign of the
      delta is not checked here; the deposit and withdrawal services do. */
  function ApplyDelta(cents: int, delta: Decimal): (r: int)
    ensures RoundsHalfUpTo(Add(Cents(cents), delta), r)
  {
    SetScale2(Add(Cents(cents), delta)).unscaled
  }

  class Account {
    const number: int
    const modality: Modality
    var balance: int

    /** A new account starts with a balance of 0.00. */
    constructor (number: int, modality: Modality)
      ensures this.number == number && this.modality == modality
      ensures balance == 0
    {
      this.number := number;
      this.modality := modality;
      balance := 0;
    }

    /** getSaldo: the balance as a two-decimal amount, worth exactly the
        stored number of cents. */
    function Balance(): (r: Decimal)
      reads this
      ensures r.scale == 2 && Aligned(r, 2) == balance
    {
      Cents(balance)
    }

    /** deposito: adds the amount to the balance. */
    method Deposit(amount: Decimal)
      modifies this
      ensures balance == ApplyDelta(old(balance), amount)
    {
      balance := SetScale2(Add(Balance(), amount)).unscaled;
    }

    /** Takes the amount off the balance. */
    method Withdraw(amount: Decimal)
      modifies this
      ensures balance == ApplyDelta(old(balance), Neg(amount))
    {
      balance := SetScale2(Sub(Balance(), amount)).unscaled;
    }
  }

  /** A delta with at most two decimals needs no rounding: the balance
      moves by exactly that many cents (0.15 + 0.06 is exactly 0.21). */
  lemma ApplyDeltaExact(cents: int, delta: Decimal)
    requires delta.scale <= 2
    ensures ApplyDelta(cents, delta) == cents + Aligned(delta, 2)
  {
    AddExact(Cents(cents), delta, 2);
    RoundingExact(Add(Cents(cents), delta), ApplyDelta(cents, delta));
  }

  /** A fresh account that receives an amount with at most two decimals
      holds exactly that amount at scale 2. */
  lemma FreshDepositExact(v: Decimal)
    requires v.scale <= 2
    ensures ApplyDelta(0, v) == Aligned(v, 2)
  {
    ApplyDeltaExact(0, v);
  }

  /** Adding a positive amount never lowers the balance: at worst the
      amount is smaller than half a cent and rounds away. */
  lemma PositiveDeltaNeverLowers(cents: int, amount: Decimal)
    requires IsPositive(amount)
    ensures ApplyDelta(cents, amount) >= cents
  {
    var sum := Add(Cents(cents), amount);
    var s := RoundingScale(sum);
    AddExact(Cents(cents), amount, s);
    assert Aligned(amount, s) > 0 by { MulPositiveMono(amount.unscaled, 0, Pow10(s - amount.scale)); }
    RoundingAtLeast(sum, ApplyDelta(cents, amount), cents);
  }

  /** Taking off a positive amount that does not exceed the balance leaves
      a balance between zero and the old balance. */
  lemma WithdrawWithinBalance(cents: int, amount: Decimal)
    requires IsPositive(amount) && !Exceeds(amount, Cents(cents))
    ensures 0 <= ApplyDelta(cents, Neg(amount)) <= cents
  {
    var diff := Add(Cents(cents), Neg(amount));
    var s := RoundingScale(diff);
    AddExact(Cents(cents), Neg(amount), s);
    ExceedsAtAnyScale(amount, Cents(cents), s);
    assert Aligned(amount, s) > 0 by { MulPositiveMono(amount.unscaled, 0, Pow10(s - amount.scale)); }
    assert Aligned(Neg(amount), s) == -Aligned(amount, s);
    RoundingAtLeast(diff, ApplyDelta(cents, Neg(amount)), 0);
    RoundingAtMost(diff, ApplyDelta(cents, Neg(amount)), cents);
  }
}
