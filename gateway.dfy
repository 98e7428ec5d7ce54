/** The settlement side the borrow checker calls: the external market's repay
    operation and the exchange gateway's two transfers. Their answers are an
    oracle fixed for the cycle; the gateway records every request it receives,
    which is the fund movement it sets off. */
module Gateway {

  datatype GatewayCall =
    | MakeRepay(symbol: string, volume: real, exchangeName: string)
    | TransferBinanceMainToMargin(assetSymbol: string, amount: real)
    | TransferFireblocksToBinance(assetSymbol: string, assetNetwork: string, vaultAccountId: int, amount: real)

  /** Success, an error carried in the response (its JSON or message text), or
      an exception thrown by the call itself. */
  datatype CallResult = Success | ErrorResponse(error: string) | Thrown(message: string)

  /** The message of the exception the caller ends up propagating: an error
      response is wrapped in a new exception whose text starts with `prefix`,
      a thrown exception is rethrown as it is. */
  function FailureMessage(prefix: string, r: CallResult): string
    requires !r.Success?
  {
    match r
    case ErrorResponse(e) => prefix + e
    case Thrown(m) => m
  }

  class SettlementGateway {
    const answer: GatewayCall -> CallResult
    var requests: seq<GatewayCall>

    constructor (answer: GatewayCall -> CallResult)
      ensures this.answer == answer && requests == []
    {
      this.answer := answer;
      requests := [];
    }

    /** Sends one request and returns the oracle's answer to it. */
    method Send(c: GatewayCall) returns (r: CallResult)
      modifies this
      ensures requests == old(requests) + [c]
      ensures r == answer(c)
    {
      requests := requests + [c];
      r := answer(c);
    }
  }
}
