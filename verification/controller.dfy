/** The deposit endpoint (POST /deposito/{numeroConta}?valor=...): it runs
    the deposit service and turns its outcome into an HTTP status and a
    response body. */
module DepositEndpoint {
  import opened Results
  import opened Decimals
  import opened Render
  import opened Store
  import opened Ledger

  datatype Response = Response(status: int, body: string)

  const InvalidAmountMessage: string := "Valor informado está inválido."

  /** The response for a deposit outcome: 200 with the new balance written
      with two fraction digits, 400 with the invalid-amount message, 404
      for an unknown account. A deposit is never refused for insufficient
      funds. */
  function DepositResponse(r: Result<Decimal, Error>): (resp: Response)
    requires r.Success? ==> r.value.scale == 2
    requires r != Failure(InsufficientFunds)
    ensures resp.status == 200 <==> r.Success?
    ensures resp.status == 400 <==> r == Failure(InvalidAmount)
    ensures resp.status == 404 <==> r == Failure(NotFound)
    ensures r.Success? ==> ParseCents(resp.body) == Some(r.value.unscaled)
    ensures r == Failure(InvalidAmount) ==> resp.body == InvalidAmountMessage
  {
    match r
    case Success(balance) =>
      FormatParseRoundTrip(balance.unscaled);
      Response(200, FormatCents(balance.unscaled))
    case Failure(InvalidAmount) => Response(400, InvalidAmountMessage)
    case Failure(NotFound) => Response(404, "")
  }

  class DepositController {
    const service: DepositService

    constructor (service: DepositService)
      ensures this.service == service
    {
      this.service := service;
    }

    /** Handles one deposit request. */
    method Deposit(number: int, amount: Decimal) returns (resp: Response)
      requires service.store.Valid()
      modifies service.store, service.store.accounts.Values
      ensures service.store.Valid()
      ensures resp == DepositResponse(DepositOutcome(old(service.store.persisted), number, amount))
      ensures var r := DepositOutcome(old(service.store.persisted), number, amount);
              service.store.persisted == if r.Success? then old(service.store.persisted)[number := r.value.unscaled]
                                         else old(service.store.persisted)
      ensures service.store.accounts == old(service.store.accounts)
      ensures service.store.saves == old(service.store.saves) +
                (if DepositOutcome(old(service.store.persisted), number, amount).Success? then 1 else 0)
      ensures service.store.lookups == old(service.store.lookups) + 1
    {
      var r := service.Execute(number, amount);
      resp := DepositResponse(r);
    }
  }
}
