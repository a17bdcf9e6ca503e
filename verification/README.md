# Account ledger: deposit and withdrawal over exact decimal balances

This project models the core of a small Spring banking service. An
account (`Conta`) holds a balance that is always kept at two decimal
places. Two services change it:

- the deposit service (`Deposito.executar(numeroConta, valor)`);
- the withdrawal service (`Saque.executar(numeroConta, valor)`).

Each service looks the account up in the repository (`ContaRepository`)
once. It rejects an unknown account or a non-positive amount. The
withdrawal service also rejects an amount larger than the balance.
Otherwise the service adds or subtracts the amount exactly, rounds the
result half-up to cents, updates the account object in place, saves it
once and returns the new balance. The deposit endpoint
(`POST /deposito/{numeroConta}`) renders that balance as text with two
fraction digits, such as "10.00" or "0.21".

The classes `Conta`, `Deposito`, `Saque`, `ContaRepository` and the
controller are not part of this model's sources. Their behaviour is
reconstructed from the three test classes cited below, which fix it
on the cases they exercise; the rest follows the decisions listed
below.

Files:

- `decimal.dfy` (module `Decimals`): a `Decimal` is an unscaled integer
  plus a scale, as in `BigDecimal`. It provides exact `Add`/`Sub`, the
  value comparison `Exceeds` (`compareTo`) and `SetScale2`, which is
  `setScale(2, HALF_UP)`. `RoundsHalfUpTo` states what a half-up
  rounding to cents is, independently of how `SetScale2` computes it.
- `account.dfy` (module `Accounts`): the `Account` class with its balance
  in integer cents, and `ApplyDelta`, its balance arithmetic.
- `store.dfy` (module `Store`): `AccountStore` is the repository. It holds
  a map from number to account object (what a lookup returns) and a map
  from number to the balance that `save` last wrote. Counters for saves
  and lookups replace Mockito's `verify(..., times(n))`.
- `services.dfy` (module `Ledger`): the error kinds, and `DepositOutcome`
  and `WithdrawOutcome`, which specify the two operations over the
  persisted balances. `DepositService.Execute` and
  `WithdrawService.Execute` are the in-place implementations, proved
  against those specifications.
- `controller.dfy` (module `DepositEndpoint`): maps a deposit outcome to
  a status and body (200 with the balance, 400 with
  "Valor informado está inválido.", 404).
- `render.dfy` (module `Render`): `FormatCents`, and `ParseCents`, which
  reads the text back.
- `scenarios.dfy` (module `Scenarios`): every test case except the two
  database-problem tests, rebuilt on a fresh store, with the asserted results as postconditions.
- `results.dfy` (module `Results`): `Option` and `Result`.

Amounts are written as (unscaled, scale). `BigDecimal.valueOf(2.887)` is
`Decimal(2887, 3)`, `BigDecimal.TEN` is `Decimal(10, 0)`,
`BigDecimal.ONE.setScale(2)` is `Decimal(100, 2)` and
`BigDecimal.valueOf(5.0)` is `Decimal(50, 1)`.

Decisions the tests leave open or force:

- Rejection of an invalid amount. The services could report a
  non-positive amount with the same exception as an unknown account
  (`ResourceNotFoundException`). The controller test instead expects 400 with the message
  "Valor informado está inválido." and expects 404 for an unknown
  account, so the two must be distinguishable. The model therefore has a
  separate `InvalidAmount` kind. The lookup happens first, so
  `testeDepositarValorNegativo` (account 15 is unknown) still ends in
  `NotFound`.
- What is rounded. The new balance is the exact sum or difference,
  rounded once: round(old + amount) and round(old - amount). The amount
  is not rounded first. The two orders differ for amounts such as
  1.425 taken from 5.00.

## Model

| member | source | states |
|---|---|---|
| `Decimals.SetScale2` | src/test/java/tech/ada/banco/services/SaqueTest.java:102-126 | the result has scale 2 and is the half-up rounding of the input to cents: within half a cent, with an exact tie going away from zero |
| `Decimals.AddExact` | src/test/java/tech/ada/banco/controller/DepositoControllerTest.java:54-67 | decimal addition loses nothing: at any scale at least as fine as both operands, the sum equals the sum of the operands |
| `Decimals.ExceedsAtAnyScale` | src/test/java/tech/ada/banco/services/SaqueTest.java:93-100 | "amount exceeds balance" compares values, not representations: it gives the same answer at every common scale (6 against 5.00) |
| `Decimals.Add` | src/test/java/tech/ada/banco/controller/DepositoControllerTest.java:54-67 | `BigDecimal.add`: the sum is at the larger of the two operands' scales; that it is exact is `AddExact` |
| `Decimals.Neg` | src/test/java/tech/ada/banco/services/SaqueTest.java:36-46 | `BigDecimal.negate`: the result keeps the operand's scale |
| `Decimals.NegIsInverse` | src/test/java/tech/ada/banco/services/SaqueTest.java:48-58 | negation is the additive inverse: d + (-d) is zero at d's scale, as withdrawing the whole 10.00 shows |
| `Decimals.Sub` | src/test/java/tech/ada/banco/services/SaqueTest.java:36-46 | `BigDecimal.subtract`: the difference is at the larger of the two operands' scales |
| `Decimals.SubAddRoundTrip` | src/test/java/tech/ada/banco/services/SaqueTest.java:36-46 | subtraction is exact: adding the subtrahend back to the difference gives the minuend's value |
| `Decimals.ExceedsMeansPositiveDifference` | src/test/java/tech/ada/banco/services/SaqueTest.java:93-100 | `compareTo(...) > 0` (`Exceeds`): the amount exceeds the balance exactly when amount - balance is positive |
| `Decimals.PositiveMeansAboveZero` | src/test/java/tech/ada/banco/controller/DepositoControllerTest.java:37-50 | the positivity test (`IsPositive`) is the comparison with zero, whatever zero's scale, so -25 is rejected |
| `Decimals.RoundingExact` | src/test/java/tech/ada/banco/services/SaqueTest.java:27-34 | a number with at most two decimals rounds to itself, so `setScale(2)` of such a value is exact |
| `Decimals.RoundingUnique` | src/test/java/tech/ada/banco/services/DepositoTest.java:79-100 | half-up rounding to cents has exactly one answer, so the rounding contracts fix the balance |
| `Decimals.RoundingAtLeast` | src/test/java/tech/ada/banco/services/SaqueTest.java:48-58 | a value at or above a whole number of cents b never rounds below b |
| `Decimals.RoundingAtMost` | src/test/java/tech/ada/banco/services/SaqueTest.java:93-100 | a value at or below a whole number of cents b never rounds above b |
| `Accounts.ApplyDelta` | src/test/java/tech/ada/banco/services/DepositoTest.java:79-100 | the new balance in cents is the half-up rounding of the exact old balance plus the delta |
| `Accounts.ApplyDeltaExact` | src/test/java/tech/ada/banco/controller/DepositoControllerTest.java:54-67 | a delta with at most two decimals moves the balance by exactly that many cents (0.15 + 0.06 = 0.21, no drift) |
| `Accounts.FreshDepositExact` | src/test/java/tech/ada/banco/services/SaqueTest.java:27-34 | a fresh account (balance 0.00) that receives v, where v has at most two decimals, holds exactly v at scale 2 |
| `Accounts.PositiveDeltaNeverLowers` | src/test/java/tech/ada/banco/services/DepositoTest.java:30-39 | depositing a positive amount never lowers the balance |
| `Accounts.WithdrawWithinBalance` | src/test/java/tech/ada/banco/services/SaqueTest.java:48-58 | withdrawing a positive amount no larger than the balance leaves a balance between 0 and the old balance; withdrawing everything is allowed |
| `Accounts.Account.constructor` | src/test/java/tech/ada/banco/services/SaqueTest.java:28 | a new account has the given number and modality and a balance of 0.00 |
| `Accounts.Account.Balance` | src/test/java/tech/ada/banco/services/SaqueTest.java:45 | `getSaldo`: a two-decimal amount worth exactly the stored number of cents |
| `Accounts.Account.Deposit` | src/test/java/tech/ada/banco/services/SaqueTest.java:29 | `deposito` replaces the balance, in place, with `ApplyDelta` of the old balance and the amount |
| `Accounts.Account.Withdraw` | src/test/java/tech/ada/banco/services/SaqueTest.java:102-126 | the withdrawal's in-place update: the balance becomes `ApplyDelta` of the old balance and the negated amount |
| `Store.AccountStore.constructor` | src/test/java/tech/ada/banco/services/SaqueTest.java:24 | a new repository is empty and consistent, with zero saves and zero lookups |
| `Store.AccountStore.FindByNumber` | src/test/java/tech/ada/banco/controller/DepositoControllerTest.java:73-74 | the lookup returns the account stored under the number, or nothing for an absent number; it counts one lookup and changes nothing else |
| `Store.AccountStore.Save` | src/test/java/tech/ada/banco/services/SaqueTest.java:41 | a save writes the account's current balance under its number, keeps the repository consistent and counts exactly one save |
| `Ledger.DepositOutcome` | src/test/java/tech/ada/banco/services/DepositoTest.java:30-100 | deposit outcome: not-found exactly when the number is absent; invalid-amount exactly when the account exists and the amount is not positive; otherwise success with a scale-2 balance that is the half-up rounding of old + amount and no lower than the old balance |
| `Ledger.WithdrawOutcome` | src/test/java/tech/ada/banco/services/SaqueTest.java:36-126 | withdrawal outcome: not-found, invalid-amount, or insufficient-funds exactly when the amount exceeds the balance by value; otherwise success with the half-up rounding of old - amount, between 0 and the old balance |
| `Ledger.DepositService.constructor` | src/test/java/tech/ada/banco/services/DepositoTest.java:18 | `new Deposito(repository)`: the service works on the given repository |
| `Ledger.DepositService.Execute` | src/test/java/tech/ada/banco/services/DepositoTest.java:30-100 | result equals `DepositOutcome`; one lookup; on success one save, the persisted and in-memory balances of that account become the returned value, and all other accounts are untouched; on failure no save and no balance changes; non-negative balances stay non-negative |
| `Ledger.WithdrawService.constructor` | src/test/java/tech/ada/banco/services/SaqueTest.java:25 | `new Saque(repository)`: the service works on the given repository |
| `Ledger.WithdrawService.Execute` | src/test/java/tech/ada/banco/services/SaqueTest.java:36-126 | result equals `WithdrawOutcome`; the same effects on saves, lookups and balances as the deposit; non-negative balances stay non-negative |
| `DepositEndpoint.DepositResponse` | src/test/java/tech/ada/banco/controller/DepositoControllerTest.java:20-84 | 200 exactly on success, with a body that reads back as the new balance; 400 exactly for an invalid amount, with "Valor informado está inválido."; 404 exactly for an unknown account |
| `DepositEndpoint.DepositController.Deposit` | src/test/java/tech/ada/banco/controller/DepositoControllerTest.java:20-84 | the response is `DepositResponse` of the deposit outcome; the persisted balances change exactly as that outcome says; one lookup, and one save exactly on success |
| `Render.FormatCents` | src/test/java/tech/ada/banco/controller/DepositoControllerTest.java:32 | the text ends in a point and two digits, starts with '-' exactly for a negative balance, and its whole units are at least one digit with no leading zero |
| `Render.FormatParseRoundTrip` | src/test/java/tech/ada/banco/controller/DepositoControllerTest.java:66 | the rendered text reads back as exactly the balance it came from |
| `Render.FormatExamples` | src/test/java/tech/ada/banco/controller/DepositoControllerTest.java:32 | 10.00 renders as "10.00", 0.21 as "0.21" and 0.00 as "0.00" |
| `Scenarios.OpenAccount` | src/test/java/tech/ada/banco/services/DepositoTest.java:20-26 | `criaConta`: a fresh account holding exactly the initial amount at scale 2, stored under the given number |
| `Scenarios.WithdrawRoundsDown` | src/test/java/tech/ada/banco/services/SaqueTest.java:102-113 | 5.00 - 1.42857 gives 3.57 |
| `Scenarios.WithdrawRoundsUp` | src/test/java/tech/ada/banco/services/SaqueTest.java:115-126 | 5.00 - 1.42358 gives 3.58 |
| `Scenarios.DepositRoundsUp` | src/test/java/tech/ada/banco/services/DepositoTest.java:79-88 | 5.00 + 2.887 gives 7.89 |
| `Scenarios.DepositRoundsDown` | src/test/java/tech/ada/banco/services/DepositoTest.java:91-100 | 5.00 + 2.882 gives 7.88 |
| `Scenarios.WithdrawPartial` | src/test/java/tech/ada/banco/services/SaqueTest.java:36-46 | withdrawing 1.00 from 10.00 returns 9.00, leaves 9.00 in the account and saves once |
| `Scenarios.WithdrawAll` | src/test/java/tech/ada/banco/services/SaqueTest.java:48-58 | withdrawing 10.00 from 10.00 returns 0.00, leaves 0.00 and saves once |
| `Scenarios.WithdrawUnknownAccount` | src/test/java/tech/ada/banco/services/SaqueTest.java:61-74 | withdrawing from account 1 is not-found, saves nothing, and account 10 keeps 10.00 |
| `Scenarios.WithdrawMoreThanBalance` | src/test/java/tech/ada/banco/services/SaqueTest.java:93-100 | withdrawing 6 from 5.00 is insufficient-funds, saves nothing, and the balance stays 5.00 |
| `Scenarios.WithdrawAmountRoundedUp` | src/test/java/tech/ada/banco/services/SaqueTest.java:102-113 | withdrawing 1.42857 from 5.00 returns and stores 3.57 with one save |
| `Scenarios.WithdrawAmountRoundedDown` | src/test/java/tech/ada/banco/services/SaqueTest.java:115-126 | withdrawing 1.42358 from 5.00 returns and stores 3.58 with one save |
| `Scenarios.DepositIntoAccount` | src/test/java/tech/ada/banco/services/DepositoTest.java:30-39 | depositing 10 onto 5.00 returns and stores 15.00 with one save |
| `Scenarios.DepositUnknownAccount` | src/test/java/tech/ada/banco/services/DepositoTest.java:42-55 | depositing to account 13 is not-found after exactly one lookup, with no save, and account 10 keeps 5.00 |
| `Scenarios.DepositNegativeToUnknownAccount` | src/test/java/tech/ada/banco/services/DepositoTest.java:69-76 | depositing -10 to the unknown account 15 is not-found with no save, and account 10 keeps 5.00 |
| `Scenarios.DepositAmountRoundedUp` | src/test/java/tech/ada/banco/services/DepositoTest.java:79-88 | depositing 2.887 onto 5.00 returns and stores 7.89 with one save |
| `Scenarios.DepositAmountRoundedDown` | src/test/java/tech/ada/banco/services/DepositoTest.java:91-100 | depositing 2.882 onto 5.00 returns and stores 7.88 with one save |
| `Scenarios.WholeDepositAnswer` | src/test/java/tech/ada/banco/controller/DepositoControllerTest.java:20-33 | 10 onto 0.00 succeeds with 10.00, answered as 200 "10.00" |
| `Scenarios.EndpointWholeAmount` | src/test/java/tech/ada/banco/controller/DepositoControllerTest.java:20-33 | the endpoint answers 200 "10.00" and the persisted balance becomes 10.00 |
| `Scenarios.EndpointNegativeAmount` | src/test/java/tech/ada/banco/controller/DepositoControllerTest.java:37-50 | -25 on an existing account answers 400 with "Valor informado está inválido." and the persisted balance stays 0.00 |
| `Scenarios.FractionalDepositAnswer` | src/test/java/tech/ada/banco/controller/DepositoControllerTest.java:54-67 | 0.06 onto 0.15 succeeds with exactly 0.21, answered as 200 "0.21" |
| `Scenarios.EndpointFractionalAmount` | src/test/java/tech/ada/banco/controller/DepositoControllerTest.java:54-67 | the endpoint answers 200 "0.21" and the persisted balance becomes 0.21 |
| `Scenarios.EndpointUnknownAccount` | src/test/java/tech/ada/banco/controller/DepositoControllerTest.java:71-84 | the lookup of 9999 finds nothing, the deposit answers 404, and the existing account's persisted balance stays 0.00 |

## Left out

- The source of `Conta`, `Deposito`, `Saque`, `ContaRepository` and the
  controller is not part of this model. Their behaviour comes from the
  tests and the decisions stated above.
- Mockito and MockMvc. The repository is a map, and two counters stand
  in for `verify(..., times(n))`. In the scenarios an account is opened
  with a real save instead of a stubbed lookup, so each scenario reports
  the saves made by the request itself.
- The "database problem" tests (SaqueTest.java:77-90 and
  DepositoTest.java:58-66) are left out. They only reach an unstubbed
  lookup, which is a not-found. A failing store is I/O and is not
  modelled.
- `BigDecimal.valueOf(double)` and parsing the request parameter `valor`
  into a decimal are left out. Amounts enter the model as exact
  (unscaled, scale) pairs.
- HTTP routing, and the withdrawal endpoint: no withdrawal endpoint
  appears in the tests, and no status for insufficient funds does either.
- The 404 body: the test does not inspect it, and the model answers "".
- The owner (`Cliente`) is left out. The modality (`ModalidadeConta`) is
  an opaque tag.
- Persistence and the read-back through `obtemContaDoBanco` are not
  modelled as such. The read-back is the `persisted` map.
- Concurrent requests are left out. Every request is one sequential
  read-modify-write.
- `Ledger.WithdrawOutcome`: no test fixes what happens to a withdrawal of
  a non-positive amount. The model assumes it is rejected as an invalid
  amount, as a deposit is.
