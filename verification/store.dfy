/** The account repository (ContaRepository) the services talk to: lookup
    by account number and save. The accounts it hands out are shared
    objects, so a service that changes one changes it for every holder;
    what save last wrote is kept apart, as the persisted balance of each
    number. Two counters record how often each operation was called. */
module Store {
  import opened Results
  import opened Accounts

  class AccountStore {
    /** The account object that a lookup of each number returns. */
    var accounts: map<int, Account>
    /** The balance, in cents, that save last wrote for each number. */
    var persisted: map<int, int>
    /** How many times save was called. */
    var saves: nat
    /** How many times findContaByNumeroConta was called. */
    var lookups: nat

    /** Every stored account sits under its own number and has a persisted
        balance. Since numbers differ, so do the objects. */
    ghost predicate Coherent()
      reads this
    {
      && persisted.Keys == accounts.Keys
      && forall k :: k in accounts ==> accounts[k].number == k
    }

    /** Between operations, every change made to an account has been saved. */
    ghost predicate Valid()
      reads this, accounts.Values
    {
      && Coherent()
      && forall k :: k in accounts ==> persisted[k] == accounts[k].balance
    }

    /** No persisted balance is negative. */
    predicate NonNegative()
      reads this
    {
      forall k :: k in persisted ==> persisted[k] >= 0
    }

    constructor ()
      ensures Valid()
      ensures accounts == map[] && persisted == map[]
      ensures saves == 0 && lookups == 0
    {
      accounts, persisted := map[], map[];
      saves, lookups := 0, 0;
    }

    /** findContaByNumeroConta: the account stored under the number, if any. */
    method FindByNumber(number: int) returns (r: Option<Account>)
      modifies this`lookups
      ensures r == if number in accounts then Some(accounts[number]) else None
      ensures lookups == old(lookups) + 1
    {
      lookups := lookups + 1;
      r := if number in accounts then Some(accounts[number]) else None;
    }

    /** save: writes the account's current balance under its number (an
        upsert of the whole account). */
    method Save(acc: Account)
      requires Coherent()
      modifies this`accounts, this`persisted, this`saves
      ensures Coherent()
      ensures accounts == old(accounts)[acc.number := acc]
      ensures persisted == old(persisted)[acc.number := acc.balance]
      ensures saves == old(saves) + 1
    {
      accounts := accounts[acc.number := acc];
      persisted := persisted[acc.number := acc.balance];
      saves := saves + 1;
    }
  }
}
