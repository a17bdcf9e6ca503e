/** The two services of the ledger, Deposito and Saque. Each one looks the
    account up once, checks the amount, changes the balance of that one
    account in place, saves it once and returns the new balance; a rejected
    request changes nothing and saves nothing. */
module Ledger {
  import opened Results
  import opened Decimals
  import opened Accounts
  import opened Store

  /** Why a request is rejected: ResourceNotFoundException for an unknown
      account, the invalid-amount rejection for an amount that is not
      positive, SaldoInsuficienteException for a withdrawal larger than the
      balance. */
  datatype Error = NotFound | InvalidAmount | InsufficientFunds

  /** What a deposit of amount into account number does, given the
      persisted balances. */
  function DepositOutcome(balances: map<int, int>, number: int, amount: Decimal): (r: Result<Decimal, Error>)
    ensures r == Failure(NotFound) <==> number !in balances
    ensures r == Failure(InvalidAmount) <==> number in balances && !IsPositive(amount)
    ensures r.Success? <==> number in balances && IsPositive(amount)
    ensures r.Success? ==> && r.value.scale == 2
                           && RoundsHalfUpTo(Add(Cents(balances[number]), amount), r.value.unscaled)
                           && r.value.unscaled >= balances[number]
  {
    if number !in balances then Failure(NotFound)
    else if !IsPositive(amount) then Failure(InvalidAmount)
    else
      PositiveDeltaNeverLowers(balances[number], amount);
      Success(Cents(ApplyDelta(balances[number], amount)))
  }

  /** What a withdrawal of amount from account number does, given the
      persisted balances. */
  function WithdrawOutcome(balances: map<int, int>, number: int, amount: Decimal): (r: Result<Decimal, Error>)
    ensures r == Failure(NotFound) <==> number !in balances
    ensures r == Failure(InvalidAmount) <==> number in balances && !IsPositive(amount)
    ensures r == Failure(InsufficientFunds) <==>
              number in balances && IsPositive(amount) && Exceeds(amount, Cents(balances[number]))
    ensures r.Success? ==> && number in balances
                           && r.value.scale == 2
                           && RoundsHalfUpTo(Sub(Cents(balances[number]), amount), r.value.unscaled)
                           && 0 <= r.value.unscaled <= balances[number]
  {
    if number !in balances then Failure(NotFound)
    else if !IsPositive(amount) then Failure(InvalidAmount)
    else if Exceeds(amount, Cents(balances[number])) then Failure(InsufficientFunds)
    else
      WithdrawWithinBalance(balances[number], amount);
      Success(Cents(ApplyDelta(balances[number], Neg(amount))))
  }

  /** Deposito. */
  class DepositService {
    const store: AccountStore

    constructor (store: AccountStore)
      ensures this.store == store
    {
      this.store := store;
    }

    /** executar(numeroConta, valor). */
    method Execute(number: int, amount: Decimal) returns (r: Result<Decimal, Error>)
      requires store.Valid()
      modifies store, store.accounts.Values
      ensures store.Valid()
      ensures r == DepositOutcome(old(store.persisted), number, amount)
      ensures store.accounts == old(store.accounts)
      ensures store.persisted == if r.Success? then old(store.persisted)[number := r.value.unscaled]
                                 else old(store.persisted)
      ensures forall k :: k in store.accounts && (r.Failure? || k != number) ==>
                store.accounts[k].balance == old(store.accounts[k].balance)
      ensures r.Success? ==> r.value == store.accounts[number].Balance()
      ensures store.saves == old(store.saves) + (if r.Success? then 1 else 0)
      ensures store.lookups == old(store.lookups) + 1
      ensures old(store.NonNegative()) ==> store.NonNegative()
    {
      var found := store.FindByNumber(number);
      if found.None? {
        return Failure(NotFound);
      }
      var account := found.value;
      if !IsPositive(amount) {
        return Failure(InvalidAmount);
      }
      account.Deposit(amount);
      store.Save(account);
      r := Success(account.Balance());
      PositiveDeltaNeverLowers(old(store.persisted)[number], amount);
    }
  }

  /** Saque. */
  class WithdrawService {
    const store: AccountStore

    constructor (store: AccountStore)
      ensures this.store == store
    {
      this.store := store;
    }

    /** executar(numeroConta, valor). */
    method Execute(number: int, amount: Decimal) returns (r: Result<Decimal, Error>)
      requires store.Valid()
      modifies store, store.accounts.Values
      ensures store.Valid()
      ensures r == WithdrawOutcome(old(store.persisted), number, amount)
      ensures store.accounts == old(store.accounts)
      ensures store.persisted == if r.Success? then old(store.persisted)[number := r.value.unscaled]
                                 else old(store.persisted)
      ensures forall k :: k in store.accounts && (r.Failure? || k != number) ==>
                store.accounts[k].balance == old(store.accounts[k].balance)
      ensures r.Success? ==> r.value == store.accounts[number].Balance()
      ensures store.saves == old(store.saves) + (if r.Success? then 1 else 0)
      ensures store.lookups == old(store.lookups) + 1
      ensures old(store.NonNegative()) ==> store.NonNegative()
    {
      var found := store.FindByNumber(number);
      if found.None? {
        return Failure(NotFound);
      }
      var account := found.value;
      if !IsPositive(amount) {
        return Failure(InvalidAmount);
      }
      if Exceeds(amount, account.Balance()) {
        return Failure(InsufficientFunds);
      }
      account.Withdraw(amount);
      store.Save(account);
      r := Success(account.Balance());
      WithdrawWithinBalance(old(store.persisted)[number], amount);
    }
  }
}
