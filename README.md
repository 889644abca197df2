# Solana volume bot: wallet leasing and the buy/sell cycle

The volume bot keeps a list of wallet secret keys and runs a number of workers. Each worker
leases a wallet nobody else is using, buys the configured amount of a token with SOL, waits,
sells the whole token balance back to SOL, releases the wallet, waits, and starts over. This
project models the part of `index.js` whose behaviour can be stated precisely:

- **`VolumeBot`** (`bot.dfy`): the class with its settings, its keys and the mutable set
  `activeWallets` of leased wallet ids. `GetAvailableKeypair` redraws random key indices until
  one decodes to an unleased wallet and adds that wallet to the set (the redraw loop on its own
  is `DrawUnleased`). `Release` deletes an id. `RunIteration` is one pass of the worker loop, and
  `Start` is the loop that starts `min(threads, keys.length)` workers.
- **The cycle** (`cycle.dfy`): `Leg` is one call of `performSwap`: it sends the leg's request
  with the built options and records the service's answer. `Swap` buys, and sells only after a truthy buy txid. `Iteration`
  is one worker-loop pass recorded as a trace of events: lease, swap attempts, sleeps, release.
- **Swap requests** (`swaps.dfy`): the direction, tokens and amount of each leg, and the submission
  options with the Jito switch.
- **Wallet ids and scheduling** (`wallets.dfy`, `scheduling.dfy`): the ids the keys decode to, the
  `parseInt(THREADS) || 1` setting, the worker-count clamp, and why a leasing worker always has a
  free wallet to find.

Inputs the program takes from the outside are parameters of the model:

- The random draws of `Math.random` are a sequence of indices, each below the number of keys.
- Decoding a secret key into its public id (`Keypair.fromSecretKey(bs58.decode(…))`) is the
  function `IdOf`, given to the constructor.
- The swap service (`getSwapInstructions` and then `performSwap` of the swap SDK) is one
  `Executor` function. It returns a txid, or `None` when either call threw, in which case the
  source returns `false`.

The source loops forever in two places. First, the redraw loop never ends if no draw ever hits a
free wallet. The model therefore requires that some supplied draw hits one, and
`FreeWalletForEveryWorker` shows when that is possible at all. Second, `run` never returns, so the
model covers a single pass of it.

Points where the code decides, and the model follows it:

- `parseInt(THREADS) || 1` replaces only a non-number or zero by 1. A negative thread count is
  kept, and then the start loop starts no worker at all.
- `if (buyTxid)` uses JavaScript truthiness: a buy that returned an empty txid counts as failed
  and no sell follows.
- The clamp counts keys, not distinct wallets. If the keys file lists the same key twice, more
  workers can start than there are wallets. Then a worker may find every wallet leased while it
  spins in the synchronous redraw loop. `DuplicateKeysDefeatClamp` exhibits this, and
  `FreeWalletForEveryWorker` needs distinct wallet ids.

## Model

| member | source | states |
|---|---|---|
| `Bot.VolumeBot.constructor` | index.js:28-43 | settings are kept with the thread count defaulted; no wallet is leased at start |
| `Bot.VolumeBot.DrawUnleased` | index.js:47-50 | the redraw loop stops at the first draw whose wallet is not leased; every earlier draw hit a leased wallet |
| `Bot.VolumeBot.GetAvailableKeypair` | index.js:45-54 | the returned key is the first draw's key whose wallet was unleased; the leased set gains exactly that id (one more member) and stays inside the pool |
| `Bot.VolumeBot.Release` | index.js:56-58 | exactly the given id leaves the leased set; every other lease stays; releasing an unleased id is a no-op |
| `Bot.VolumeBot.RunIteration` | index.js:114-123 | lease, swap, release and sleep leave the leased set as it was, and the pass does what `Iteration` records for the wallet it leased |
| `Bot.VolumeBot.OverlappingLeases` | index.js:45-54 | two leases outstanding at once are of two different wallets |
| `Bot.VolumeBot.Start` | index.js:125-133 | one worker per iteration of the clamp loop: `WorkerCount(threads, keys.length)` workers |
| `Scheduling.ThreadSetting` | index.js:38 | the thread count is never zero; a non-number or a zero parse gives 1; any other parse is kept |
| `Scheduling.WorkerCount` | index.js:128-131 | with a non-negative thread count, the smaller of it and the number of keys; with a negative one, no worker |
| `Scheduling.FreeWalletForEveryWorker` | index.js:128-131 | with distinct wallets, while fewer leases are out than workers, some key's wallet is unleased, so the redraw loop can end |
| `Scheduling.DuplicateKeysDefeatClamp` | index.js:128 | with a key listed twice and two threads, one lease can leave every key's wallet leased |
| `Wallets.InPoolIds` | index.js:48-49 | an id is in the pool exactly when some key decodes to it |
| `Wallets.PoolIdsCount` | index.js:40-42 | the pool has at most as many wallet ids as keys, and exactly as many when no two keys share a wallet |
| `Wallets.LeasedWithinPool` | index.js:42-58 | a leased set inside the pool is never larger than the keys list |
| `Wallets.FreeKeyExists` | index.js:47-50 | while fewer ids are leased than the pool holds, some key decodes to an unleased wallet |
| `Swaps.LegRequest` | index.js:62-75 | a buy goes SOL to token with the configured amount, a sell token to SOL with "auto"; the two tokens are always the pair, distinct when the token is not SOL; the payer is the leased wallet |
| `Swaps.SellMirrorsBuy` | index.js:63-71 | the sell request reverses the buy request's tokens for the same wallet |
| `Swaps.BuildSwapOptions` | index.js:87-98 | Jito is set, and enabled, exactly when the setting asks for it |
| `Swaps.OptionsDifferOnlyInJito` | index.js:87-97 | all other submission options are fixed |
| `Cycle.Swap` | index.js:100-108 | a sell is attempted exactly when the buy returned a truthy txid; a failed buy ends the cycle with false; otherwise sellDelay is waited and the sell's result is the cycle's result |
| `Cycle.IterationReleasesOnce` | index.js:115-121 | a pass records 4 events after a failed buy and 6 after a successful one; it leases first, releases the same wallet exactly once after every swap attempt, then sleeps `delay` |
| `Cycle.IterationSellsOnlyAfterBuy` | index.js:116-120 | within a pass the sell appears exactly when the buy succeeded, only after the buy and the sell delay |

## Left out

- Reading settings from the environment beyond the `|| 1` thread default: `parseFloat` and `parseInt` are host-library semantics. The other settings are given as a parsed record.
- Logging through winston and chalk, including `logTransaction`: output only.
- The swap SDK (`getSwapInstructions`, `performSwap`) and the `SolanaTracker` object: network calls, modelled as the `Executor` parameter.
- `Keypair.fromSecretKey` and `bs58.decode`: foreign cryptography, modelled as the `IdOf` parameter.
- `Math.random`: replaced by a supplied sequence of draws. Uniformity is not modelled.
- `sleep`, `setTimeout` and the `Promise.all` interleaving: timing and concurrency. Sleeps appear only as `Slept` events, and interleaving only as sequential calls on the one object (`OverlappingLeases`).
- `Bot.VolumeBot.GetAvailableKeypair`: requires that some supplied draw hits an unleased wallet. The source instead keeps drawing forever.
- `Bot.VolumeBot.RunIteration`: covers one pass of `run`'s `while (true)` loop, not the endless repetition.
- Floating-point `amount`, `priorityFee` and the Jito tip: carried as `real` values and passed through unchanged.
- Key decoding and SDK construction are taken never to fail. `IdOf` is total, although `Keypair.fromSecretKey(bs58.decode(…))` (index.js:49) throws on a malformed key. `new SolanaTracker(…)` (index.js:117) is not modelled at all. Either throw rejects `run` and `start`, which is only logged at the top level (index.js:137).
- `Bot.VolumeBot.RunIteration`, `Cycle.IterationReleasesOnce`: do not cover a throw from `new SolanaTracker(…)`. That throw happens after the lease (index.js:116) and before the release (index.js:120), so in the source the wallet would stay leased for good.
