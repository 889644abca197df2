/** The bot object: its wallets, the set of wallets currently leased, and the worker loop's use of them. */
module Bot {
  import opened BotTypes
  import opened Swaps
  import opened Cycle
  import opened Wallets
  import opened Scheduling

  class VolumeBot {
    const config: Config
    const keys: seq<SecretKey>
    /** The decoding of a secret key into its wallet's public id. */
    const IdOf: SecretKey -> WalletId
    /** The ids of the wallets some worker is using right now. */
    var activeWallets: set<WalletId>

    /** Only wallets from the keys file are ever leased. */
    ghost predicate Valid()
      reads this
    {
      activeWallets <= PoolIds(keys, IdOf)
    }

    constructor (settings: Config, parsedThreads: Option<int>, keys: seq<SecretKey>, idOf: SecretKey -> WalletId)
      ensures Valid()
      ensures config == settings.(threads := ThreadSetting(parsedThreads))
      ensures this.keys == keys && IdOf == idOf && activeWallets == {}
    {
      config := settings.(threads := ThreadSetting(parsedThreads));
      this.keys := keys;
      IdOf := idOf;
      activeWallets := {};
    }

    /** The redraw loop: the position of the first draw whose wallet is not leased. */
    method DrawUnleased(draws: seq<nat>) returns (j: nat)
      requires forall k :: 0 <= k < |draws| ==> draws[k] < |keys|
      requires exists k :: 0 <= k < |draws| && IdOf(keys[draws[k]]) !in activeWallets
      ensures j < |draws| && IdOf(keys[draws[j]]) !in activeWallets
      ensures forall k :: 0 <= k < j ==> IdOf(keys[draws[k]]) in activeWallets
    {
      j := 0;
      while IdOf(keys[draws[j]]) in activeWallets
        invariant j < |draws|
        invariant forall k :: 0 <= k < j ==> IdOf(keys[draws[k]]) in activeWallets
        invariant exists k :: j <= k < |draws| && IdOf(keys[draws[k]]) !in activeWallets
        decreases |draws| - j
      {
        j := j + 1;
      }
    }

    /** Lease a wallet: redraw until one is not leased, then mark it leased. `used` is the number
        of random draws consumed. */
    method GetAvailableKeypair(draws: seq<nat>) returns (key: SecretKey, used: nat)
      requires Valid()
      requires forall k :: 0 <= k < |draws| ==> draws[k] < |keys|
      requires exists k :: 0 <= k < |draws| && IdOf(keys[draws[k]]) !in activeWallets
      modifies this
      ensures Valid()
      ensures 0 < used <= |draws| && key == keys[draws[used - 1]]
      ensures IdOf(key) !in old(activeWallets)
      ensures forall k :: 0 <= k < used - 1 ==> IdOf(keys[draws[k]]) in old(activeWallets)
      ensures activeWallets == old(activeWallets) + {IdOf(key)}
      ensures |activeWallets| == |old(activeWallets)| + 1
    {
      var j := DrawUnleased(draws);
      key, used := keys[draws[j]], j + 1;
      InPoolIds(keys, IdOf, IdOf(key));
      activeWallets := activeWallets + {IdOf(key)};
    }

    /** Give a wallet back; releasing a wallet that is not leased changes nothing. */
    method Release(id: WalletId)
      requires Valid()
      modifies this
      ensures Valid()
      ensures activeWallets == old(activeWallets) - {id}
      ensures id !in old(activeWallets) ==> activeWallets == old(activeWallets)
    {
      activeWallets := activeWallets - {id};
    }

    /** One pass of the worker loop: lease a wallet, run the buy/sell pair with it, release it,
        wait. With no other worker acting meanwhile, the leased set ends as it began. */
    method RunIteration(exec: Executor, draws: seq<nat>) returns (key: SecretKey, events: seq<Event>)
      requires Valid()
      requires forall k :: 0 <= k < |draws| ==> draws[k] < |keys|
      requires exists k :: 0 <= k < |draws| && IdOf(keys[draws[k]]) !in activeWallets
      modifies this
      ensures Valid()
      ensures activeWallets == old(activeWallets)
      ensures key in keys && IdOf(key) !in old(activeWallets)
      ensures events == Iteration(exec, config, key, IdOf(key))
    {
      var used;
      key, used := GetAvailableKeypair(draws);
      var id := IdOf(key);
      events := [Acquired(id)];
      var run := Swap(exec, config, key, id);
      events := events + run.events;
      Release(id);
      events := events + [Released(id), Slept(config.delay)];
    }

    /** Wallet ids that two workers hold at the same time differ: the second lease cannot
        return the wallet the first still holds. */
    method OverlappingLeases(firstDraws: seq<nat>, secondDraws: seq<nat>) returns (first: SecretKey, second: SecretKey)
      requires Valid()
      requires forall k :: 0 <= k < |firstDraws| ==> firstDraws[k] < |keys|
      requires forall k :: 0 <= k < |secondDraws| ==> secondDraws[k] < |keys|
      requires exists k :: 0 <= k < |firstDraws| && IdOf(keys[firstDraws[k]]) !in activeWallets
      // the second worker's draws hit a wallet that is free once the first lease is taken
      requires forall k ::
        (0 <= k < |firstDraws| && IdOf(keys[firstDraws[k]]) !in activeWallets
         && forall m :: 0 <= m < k ==> IdOf(keys[firstDraws[m]]) in activeWallets) ==>
        exists m :: 0 <= m < |secondDraws| && IdOf(keys[secondDraws[m]]) !in activeWallets + {IdOf(keys[firstDraws[k]])}
      modifies this
      ensures Valid()
      ensures IdOf(first) != IdOf(second)
      ensures activeWallets == old(activeWallets) + {IdOf(first), IdOf(second)}
    {
      var used;
      first, used := GetAvailableKeypair(firstDraws);
      second, used := GetAvailableKeypair(secondDraws);
    }

    /** The start loop: one worker slot per iteration of `i < min(threads, keys.length)`. */
    method Start() returns (slots: seq<nat>)
      ensures |slots| == WorkerCount(config.threads, |keys|)
      ensures forall i :: 0 <= i < |slots| ==> slots[i] == i
    {
      var available := if config.threads < |keys| then config.threads else |keys|;
      slots := [];
      var i := 0;
      while i < available
        invariant 0 <= i <= (if available < 0 then 0 else available)
        invariant |slots| == i && forall k :: 0 <= k < i ==> slots[k] == k
      {
        slots := slots + [i];
        i := i + 1;
      }
    }
  }
}
