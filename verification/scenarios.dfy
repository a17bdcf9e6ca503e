/** The concrete situations the repository's tests set up, replayed on the
    model: each method opens its accounts in a fresh store, runs one
    request and returns what the test then inspects. Amounts are written as
    (unscaled, scale): BigDecimal.valueOf(2.887) is Decimal(2887, 3),
    BigDecimal.TEN is Decimal(10, 0), BigDecimal.ONE.setScale(2) is
    Decimal(100, 2), and BigDecimal.valueOf(10.0) is Decimal(100, 1). */
module Scenarios {
  import opened Results
  import opened Decimals
  import opened Accounts
  import opened Store
  import opened Ledger
  import opened DepositEndpoint
  import Render

  /** criarConta: a new checking account that receives an initial amount
      with at most two decimals, holds exactly that amount at scale 2 and
      is stored under the given number. */
  method OpenAccount(store: AccountStore, number: int, initial: Decimal) returns (account: Account)
    requires store.Valid() && initial.scale <= 2
    modifies store
    ensures fresh(account) && store.Valid()
    ensures account.number == number && account.balance == Aligned(initial, 2)
    ensures store.accounts == old(store.accounts)[number := account]
    ensures store.persisted == old(store.persisted)[number := account.balance]
    ensures store.lookups == old(store.lookups)
  {
    account := new Account(number, Modality("CC"));
    account.Deposit(initial);
    FreshDepositExact(initial);
    store.Save(account);
  }

  /** 5.00 - 1.42857 is 3.57143, which rounds down to 3.57. */
  lemma WithdrawRoundsDown()
    ensures ApplyDelta(500, Neg(Decimal(142857, 5))) == 357
  {
    assert Pow10(3) == 1000;
    assert Add(Cents(500), Neg(Decimal(142857, 5))) == Decimal(357143, 5);
  }

  /** 5.00 - 1.42358 is 3.57642, which rounds up to 3.58. */
  lemma WithdrawRoundsUp()
    ensures ApplyDelta(500, Neg(Decimal(142358, 5))) == 358
  {
    assert Pow10(3) == 1000;
    assert Add(Cents(500), Neg(Decimal(142358, 5))) == Decimal(357642, 5);
  }

  /** 5.00 + 2.887 is 7.887, which rounds up to 7.89. */
  lemma DepositRoundsUp()
    ensures ApplyDelta(500, Decimal(2887, 3)) == 789
  {
    assert Pow10(1) == 10;
    assert Add(Cents(500), Decimal(2887, 3)) == Decimal(7887, 3);
  }

  /** 5.00 + 2.882 is 7.882, which rounds down to 7.88. */
  lemma DepositRoundsDown()
    ensures ApplyDelta(500, Decimal(2882, 3)) == 788
  {
    assert Pow10(1) == 10;
    assert Add(Cents(500), Decimal(2882, 3)) == Decimal(7882, 3);
  }

  /** SaqueTest.testSaqueParcial: 10.00 - 1.00 returns and stores 9.00,
      with one save. */
  method WithdrawPartial() returns (r: Result<Decimal, Error>, balance: int, saves: nat)
    ensures r == Success(Cents(900)) && balance == 900 && saves == 1
  {
    var store := new AccountStore();
    var account := OpenAccount(store, 10, Decimal(100, 1));
    assert account.balance == 1000;
    var before := store.saves;
    var saque := new WithdrawService(store);
    r := saque.Execute(10, Decimal(100, 2));
    balance, saves := account.balance, store.saves - before;
    assert r == Success(Cents(900)) by {
      assert !Exceeds(Decimal(100, 2), Cents(1000));
      ApplyDeltaExact(1000, Neg(Decimal(100, 2)));
    }
  }

  /** SaqueTest.testSaqueTotal: withdrawing the whole 10.00 is allowed and
      leaves 0.00, with one save. */
  method WithdrawAll() returns (r: Result<Decimal, Error>, balance: int, saves: nat)
    ensures r == Success(Cents(0)) && balance == 0 && saves == 1
  {
    var store := new AccountStore();
    var account := OpenAccount(store, 10, Decimal(100, 1));
    assert account.balance == 1000;
    var before := store.saves;
    var saque := new WithdrawService(store);
    r := saque.Execute(10, Decimal(1000, 2));
    balance, saves := account.balance, store.saves - before;
    assert r == Success(Cents(0)) by {
      assert !Exceeds(Decimal(1000, 2), Cents(1000));
      ApplyDeltaExact(1000, Neg(Decimal(1000, 2)));
    }
  }

  /** SaqueTest.testSaqueContaNaoEncontrada: account 1 does not exist, so
      nothing is saved and account 10 keeps its 10.00. */
  method WithdrawUnknownAccount() returns (r: Result<Decimal, Error>, balance: int, saves: nat)
    ensures r == Failure(NotFound) && balance == 1000 && saves == 0
  {
    var store := new AccountStore();
    var account := OpenAccount(store, 10, Decimal(100, 1));
    assert account.balance == 1000;
    var before := store.saves;
    var saque := new WithdrawService(store);
    r := saque.Execute(1, Decimal(1, 0));
    balance, saves := account.balance, store.saves - before;
  }

  /** SaqueTest.testSaqueMaiorSaldo: 6 from 5.00 is refused for
      insufficient funds; nothing is saved and the balance stays 5.00. */
  method WithdrawMoreThanBalance() returns (r: Result<Decimal, Error>, balance: int, saves: nat)
    ensures r == Failure(InsufficientFunds) && balance == 500 && saves == 0
  {
    var store := new AccountStore();
    var account := OpenAccount(store, 10, Decimal(50, 1));
    assert account.balance == 500;
    var before := store.saves;
    var saque := new WithdrawService(store);
    r := saque.Execute(10, Decimal(6, 0));
    balance, saves := account.balance, store.saves - before;
  }

  /** SaqueTest.testArredontamentoPraCima: 5.00 - 1.42857 is 3.57143, which
      rounds to 3.57; it is returned, stored and saved once. The test's
      name says "rounded up", but its own assertion is a rounding down. */
  method WithdrawAmountRoundedUp() returns (r: Result<Decimal, Error>, balance: int, saves: nat)
    ensures r == Success(Cents(357)) && balance == 357 && saves == 1
  {
    WithdrawRoundsDown();
    var store := new AccountStore();
    var account := OpenAccount(store, 10, Decimal(50, 1));
    assert account.balance == 500;
    var before := store.saves;
    var saque := new WithdrawService(store);
    r := saque.Execute(10, Decimal(142857, 5));
    balance, saves := account.balance, store.saves - before;
  }

  /** SaqueTest.testArredontamentoPraBaixo: 5.00 - 1.42358 is 3.57642, which
      rounds to 3.58; it is returned, stored and saved once. The test's
      name says "rounded down", but its own assertion is a rounding up. */
  method WithdrawAmountRoundedDown() returns (r: Result<Decimal, Error>, balance: int, saves: nat)
    ensures r == Success(Cents(358)) && balance == 358 && saves == 1
  {
    WithdrawRoundsUp();
    var store := new AccountStore();
    var account := OpenAccount(store, 10, Decimal(50, 1));
    assert account.balance == 500;
    var before := store.saves;
    var saque := new WithdrawService(store);
    r := saque.Execute(10, Decimal(142358, 5));
    balance, saves := account.balance, store.saves - before;
  }

  /** DepositoTest.testeDepositarEmConta: 10 onto 5.00 returns and stores
      15.00, with one save. */
  method DepositIntoAccount() returns (r: Result<Decimal, Error>, balance: int, saves: nat)
    ensures r == Success(Cents(1500)) && balance == 1500 && saves == 1
  {
    var store := new AccountStore();
    var account := OpenAccount(store, 10, Decimal(50, 1));
    assert account.balance == 500;
    var before := store.saves;
    var deposito := new DepositService(store);
    ApplyDeltaExact(500, Decimal(10, 0));
    r := deposito.Execute(10, Decimal(10, 0));
    balance, saves := account.balance, store.saves - before;
  }

  /** DepositoTest.testeDepositarEmContaInvalida: account 13 does not exist;
      one lookup, no save, and account 10 keeps its 5.00. */
  method DepositUnknownAccount() returns (r: Result<Decimal, Error>, balance: int, saves: nat, lookups: nat)
    ensures r == Failure(NotFound) && balance == 500 && saves == 0 && lookups == 1
  {
    var store := new AccountStore();
    var account := OpenAccount(store, 10, Decimal(50, 1));
    assert account.balance == 500;
    var before := store.saves;
    var deposito := new DepositService(store);
    r := deposito.Execute(13, Decimal(10, 0));
    balance, saves, lookups := account.balance, store.saves - before, store.lookups;
  }

  /** DepositoTest.testeDepositarValorNegativo: -10 sent to account 15,
      which does not exist, is refused as not found before the amount is
      looked at; no save, and account 10 keeps its 5.00. */
  method DepositNegativeToUnknownAccount() returns (r: Result<Decimal, Error>, balance: int, saves: nat)
    ensures r == Failure(NotFound) && balance == 500 && saves == 0
  {
    var store := new AccountStore();
    var account := OpenAccount(store, 10, Decimal(50, 1));
    assert account.balance == 500;
    var before := store.saves;
    var deposito := new DepositService(store);
    r := deposito.Execute(15, Decimal(-10, 0));
    balance, saves := account.balance, store.saves - before;
  }

  /** DepositoTest.testeDepositarArredondandoParaCima: 5.00 + 2.887 is 7.887,
      which rounds up to 7.89; it is returned, stored and saved once. */
  method DepositAmountRoundedUp() returns (r: Result<Decimal, Error>, balance: int, saves: nat)
    ensures r == Success(Cents(789)) && balance == 789 && saves == 1
  {
    DepositRoundsUp();
    var store := new AccountStore();
    var account := OpenAccount(store, 10, Decimal(50, 1));
    assert account.balance == 500;
    var before := store.saves;
    var deposito := new DepositService(store);
    r := deposito.Execute(10, Decimal(2887, 3));
    balance, saves := account.balance, store.saves - before;
  }

  /** DepositoTest.testeDepositarArredondandoParaBaixo: 5.00 + 2.882 is 7.882,
      which rounds down to 7.88; it is returned, stored and saved once. */
  method DepositAmountRoundedDown() returns (r: Result<Decimal, Error>, balance: int, saves: nat)
    ensures r == Success(Cents(788)) && balance == 788 && saves == 1
  {
    DepositRoundsDown();
    var store := new AccountStore();
    var account := OpenAccount(store, 10, Decimal(50, 1));
    assert account.balance == 500;
    var before := store.saves;
    var deposito := new DepositService(store);
    r := deposito.Execute(10, Decimal(2882, 3));
    balance, saves := account.balance, store.saves - before;
  }

  /** DepositoControllerTest.testeDepositarValorInteiro: "10" onto 0.00
      answers 200 "10.00" and persists 10.00. */
  method EndpointWholeAmount() returns (resp: Response, persisted: int)
    ensures resp == Response(200, "10.00") && persisted == 1000
  {
    var store := new AccountStore();
    var account := OpenAccount(store, 1, Decimal(0, 0));
    assert account.balance == 0;
    var deposito := new DepositService(store);
    var controller := new DepositController(deposito);
    assert store.persisted == map[1 := 0];
    WholeDepositAnswer();
    resp := controller.Deposit(1, Decimal(10, 0));
    persisted := store.persisted[1];
  }

  /** 10 deposited onto 0.00 gives 10.00, answered as "10.00". */
  lemma WholeDepositAnswer()
    ensures DepositOutcome(map[1 := 0], 1, Decimal(10, 0)) == Success(Cents(1000))
    ensures DepositResponse(Success(Cents(1000))) == Response(200, "10.00")
  {
    ApplyDeltaExact(0, Decimal(10, 0));
    Render.FormatExamples();
  }

  /** DepositoControllerTest.testeDepositarValorNegativo: "-25" on an
      existing account answers 400 with the invalid-amount message, and
      the persisted balance stays 0.00. */
  method EndpointNegativeAmount() returns (resp: Response, persisted: int)
    ensures resp == Response(400, "Valor informado está inválido.") && persisted == 0
  {
    var store := new AccountStore();
    var account := OpenAccount(store, 1, Decimal(0, 0));
    assert account.balance == 0;
    var deposito := new DepositService(store);
    var controller := new DepositController(deposito);
    assert store.persisted == map[1 := 0];
    resp := controller.Deposit(1, Decimal(-25, 0));
    persisted := store.persisted[1];
  }

  /** DepositoControllerTest.testeDepositarValorComCasaDecimal: "0.06" onto
      0.15 adds exactly, answers 200 "0.21" and persists 0.21. */
  method EndpointFractionalAmount() returns (resp: Response, persisted: int)
    ensures resp == Response(200, "0.21") && persisted == 21
  {
    var store := new AccountStore();
    var account := OpenAccount(store, 1, Decimal(15, 2));
    assert account.balance == 15;
    var deposito := new DepositService(store);
    var controller := new DepositController(deposito);
    assert store.persisted == map[1 := 15];
    FractionalDepositAnswer();
    resp := controller.Deposit(1, Decimal(6, 2));
    persisted := store.persisted[1];
  }

  /** 0.06 deposited onto 0.15 gives 0.21, answered as "0.21". */
  lemma FractionalDepositAnswer()
    ensures DepositOutcome(map[1 := 15], 1, Decimal(6, 2)) == Success(Cents(21))
    ensures DepositResponse(Success(Cents(21))) == Response(200, "0.21")
  {
    ApplyDeltaExact(15, Decimal(6, 2));
    Render.FormatExamples();
  }

  /** DepositoControllerTest.testeDepositarEmContaInvalida: looking up 9999
      finds nothing, a deposit of 0.53 to it answers 404, and the existing
      account's persisted balance stays 0.00. */
  method EndpointUnknownAccount() returns (found: Option<Account>, resp: Response, persisted: int)
    ensures found == None && resp.status == 404 && persisted == 0
  {
    var store := new AccountStore();
    var account := OpenAccount(store, 1, Decimal(0, 0));
    assert account.balance == 0;
    found := store.FindByNumber(9999);
    var deposito := new DepositService(store);
    var controller := new DepositController(deposito);
    assert store.persisted == map[1 := 0];
    resp := controller.Deposit(9999, Decimal(53, 2));
    persisted := store.persisted[1];
  }
}
