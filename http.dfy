/** The parts of the Flask endpoints that are not about stocks: the ticker parameter and error replies. */
module Http {
  import opened Wrappers
  import opened Strings

  /** An error reply: the HTTP status and the `error` message of the JSON body. */
  datatype HttpError = HttpError(status: nat, message: string)

  /** data.get('ticker', '').upper(): a missing ticker reads as the empty string. */
  function TickerParam(param: Option<string>): (ticker: string)
    ensures ticker == "" <==> param.None? || param.value == ""
    ensures IsUpperCase(ticker)
  {
    Upper(param.GetOr(""))
  }

  /** The reply to a request without a ticker. */
  const MissingTicker := HttpError(400, "Ticker symbol is required")
}
