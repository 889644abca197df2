/** How many workers the bot starts, and why each of them can always lease a wallet. */
module Scheduling {
  import opened BotTypes
  import opened Wallets

  /** The thread setting `parseInt(THREADS) || 1`: parsed is None when the text is not a number.
      Only a non-number or zero falls back to one; any other parse, negative ones included, is kept. */
  function ThreadSetting(parsed: Option<int>): (threads: int)
    ensures threads != 0
    ensures parsed.None? || parsed.value == 0 ==> threads == 1
    ensures parsed.Some? && parsed.value != 0 ==> threads == parsed.value
  {
    match parsed
    case None => 1
    case Some(n) => if n == 0 then 1 else n
  }

  /** How many times the start loop runs: `min(threads, keys.length)` iterations, none when negative. */
  function WorkerCount(threads: int, keyCount: nat): (n: nat)
    ensures n <= keyCount
    ensures threads >= 0 ==> n <= threads && (n == keyCount || n == threads)
    ensures threads < 0 ==> n == 0
  {
    if threads < 0 then 0 else if threads < keyCount then threads else keyCount
  }

  /** With distinct wallets, a worker that is about to lease finds an unleased wallet among the
      keys: the other workers hold at most one lease each, fewer than the keys there are. */
  lemma FreeWalletForEveryWorker(keys: seq<SecretKey>, idOf: SecretKey -> WalletId, leased: set<WalletId>, threads: int)
    requires DistinctIds(keys, idOf)
    requires |leased| < WorkerCount(threads, |keys|)
    ensures exists i :: 0 <= i < |keys| && idOf(keys[i]) !in leased
  {
    PoolIdsCount(keys, idOf);
    FreeKeyExists(keys, idOf, leased);
  }

  /** The clamp counts keys, not wallets: with one key listed twice and two threads, the second
      worker can find every key's wallet leased while only one lease is out. */
  lemma DuplicateKeysDefeatClamp(idOf: SecretKey -> WalletId)
    ensures var keys, leased := ["k", "k"], {idOf("k")};
      |leased| < WorkerCount(2, |keys|) && forall i :: 0 <= i < |keys| ==> idOf(keys[i]) in leased
  {
  }
}
