/** Values shared by every part of the volume bot model. */
module BotTypes {

  datatype Option<+T> = None | Some(value: T)

  /** A wallet's secret key, as a base58 string from the keys file. */
  type SecretKey = string

  /** A wallet's public key in base58: the id under which it is leased. */
  type WalletId = string

  /** The mint address of wrapped SOL, the other side of every swap. */
  const SolAddress: string := "So11111111111111111111111111111111111111112"

  /** The bot's settings, read once at start-up and never changed. */
  datatype Config = Config(
    amount: real,
    tokenAddress: string,
    delay: int,
    sellDelay: int,
    slippage: int,
    priorityFee: real,
    useJito: bool,
    rpcUrl: string,
    threads: int)
}
