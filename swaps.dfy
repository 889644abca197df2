/** What one swap leg asks the swap service for: direction, amount and options. */
module Swaps {
  import opened BotTypes

  /** A buy spends the configured amount of SOL; a sell spends the whole token balance ("auto"). */
  datatype Amount = Exact(value: real) | Auto

  datatype SwapRequest = SwapRequest(
    fromToken: string,
    toToken: string,
    amount: Amount,
    slippage: int,
    payer: WalletId,
    priorityFee: real)

  datatype Jito = Jito(enabled: bool, tip: real)

  datatype SwapOptions = SwapOptions(
    skipPreflight: bool,
    confirmationRetries: nat,
    confirmationRetryTimeout: nat,
    lastValidBlockHeightBuffer: nat,
    resendInterval: nat,
    confirmationCheckInterval: nat,
    commitment: string,
    jito: Option<Jito>)

  /** The swap service: given the wallet, the request and the options, a transaction id or
      None when either the quote or the submission threw. */
  type Executor = (SecretKey, SwapRequest, SwapOptions) -> Option<string>

  /** The request of one leg: a buy goes from SOL to the token, a sell back again. */
  function LegRequest(cfg: Config, payer: WalletId, isBuy: bool): (r: SwapRequest)
    ensures r.payer == payer && r.slippage == cfg.slippage && r.priorityFee == cfg.priorityFee
    ensures {r.fromToken, r.toToken} == {SolAddress, cfg.tokenAddress}
    ensures r.toToken == (if isBuy then cfg.tokenAddress else SolAddress)
    ensures cfg.tokenAddress != SolAddress ==> r.fromToken != r.toToken
    ensures r.amount.Auto? <==> !isBuy
    ensures isBuy ==> r.amount.value == cfg.amount
  {
    var (fromToken, toToken) := if isBuy then (SolAddress, cfg.tokenAddress) else (cfg.tokenAddress, SolAddress);
    SwapRequest(fromToken, toToken, if isBuy then Exact(cfg.amount) else Auto, cfg.slippage, payer, cfg.priorityFee)
  }

  /** The sell leg undoes the buy leg: the same pair of tokens, the other way round, for the same wallet. */
  lemma SellMirrorsBuy(cfg: Config, payer: WalletId)
    ensures var buy, sell := LegRequest(cfg, payer, true), LegRequest(cfg, payer, false);
      buy.fromToken == sell.toToken && buy.toToken == sell.fromToken && buy.payer == sell.payer
      && buy.amount == Exact(cfg.amount) && sell.amount == Auto
  {
  }

  /** The submission options; Jito bundling is switched on exactly when the settings ask for it. */
  function BuildSwapOptions(useJito: bool): (r: SwapOptions)
    ensures r.jito.Some? <==> useJito
    ensures r.jito.Some? ==> r.jito.value.enabled
    ensures r.skipPreflight && r.commitment == "processed"
  {
    SwapOptions(
      skipPreflight := true,
      confirmationRetries := 30,
      confirmationRetryTimeout := 1000,
      lastValidBlockHeightBuffer := 150,
      resendInterval := 1000,
      confirmationCheckInterval := 1000,
      commitment := "processed",
      jito := if useJito then Some(Jito(true, 0.0001)) else None)
  }

  /** Apart from the Jito switch the options never vary. */
  lemma OptionsDifferOnlyInJito(a: bool, b: bool)
    ensures BuildSwapOptions(a).(jito := None) == BuildSwapOptions(b).(jito := None)
  {
  }
}
