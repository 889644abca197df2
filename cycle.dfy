/** One work cycle of a worker: buy, wait, sell only if the buy went through; and one
    iteration of the worker loop around it, recorded as the trace of what it does. */
module Cycle {
  import opened BotTypes
  import opened Swaps

  datatype Event =
    | Acquired(id: WalletId)
    | Attempted(isBuy: bool, request: SwapRequest, outcome: Option<string>)
    | Slept(ms: int)
    | Released(id: WalletId)

  /** The events of one buy/sell pair and what the pair reports: the sell's txid, or false (None). */
  datatype SwapRun = SwapRun(events: seq<Event>, result: Option<string>)

  /** JavaScript truthiness of a leg's result: false and the empty string both count as failure. */
  predicate Truthy(txid: Option<string>) {
    txid.Some? && txid.value != ""
  }

  predicate IsSellAttempt(e: Event) {
    e.Attempted? && !e.isBuy
  }

  /** One leg: the request for this direction is sent with the configured options, and the
      service's answer is recorded; a thrown error is the failed outcome. */
  function Leg(exec: Executor, cfg: Config, key: SecretKey, id: WalletId, isBuy: bool): Event {
    var request := LegRequest(cfg, id, isBuy);
    Attempted(isBuy, request, exec(key, request, BuildSwapOptions(cfg.useJito)))
  }

  /** Buy, and only if the buy returned a truthy txid wait and sell everything. */
  function Swap(exec: Executor, cfg: Config, key: SecretKey, id: WalletId): (r: SwapRun)
    ensures |r.events| > 0 && r.events[0] == Leg(exec, cfg, key, id, true)
    // a sell is attempted exactly when the buy succeeded
    ensures (exists k :: 0 <= k < |r.events| && IsSellAttempt(r.events[k])) <==> Truthy(r.events[0].outcome)
    // a failed buy ends the cycle at once, reporting false
    ensures !Truthy(r.events[0].outcome) ==> |r.events| == 1 && r.result == None
    // after a successful buy: wait sellDelay, sell, and report the sell's own result
    ensures Truthy(r.events[0].outcome) ==>
      r.events[1..] == [Slept(cfg.sellDelay), Leg(exec, cfg, key, id, false)] && r.result == r.events[2].outcome
    // every leg pays from the wallet the cycle was given
    ensures forall k :: 0 <= k < |r.events| && r.events[k].Attempted? ==> r.events[k].request.payer == id
  {
    var buy := Leg(exec, cfg, key, id, true);
    if Truthy(buy.outcome) then
      var sell := Leg(exec, cfg, key, id, false);
      assert IsSellAttempt([buy, Slept(cfg.sellDelay), sell][2]);
      SwapRun([buy, Slept(cfg.sellDelay), sell], sell.outcome)
    else
      SwapRun([buy], None)
  }

  /** One pass of the worker loop with the wallet already chosen: lease, swap, release, wait. */
  function Iteration(exec: Executor, cfg: Config, key: SecretKey, id: WalletId): seq<Event> {
    [Acquired(id)] + Swap(exec, cfg, key, id).events + [Released(id), Slept(cfg.delay)]
  }

  /** An iteration leases its wallet first and releases the same wallet exactly once, after every
      swap attempt and before the inter-cycle delay, whatever the swap service answered. */
  lemma IterationReleasesOnce(exec: Executor, cfg: Config, key: SecretKey, id: WalletId)
    ensures var ev := Iteration(exec, cfg, key, id);
      && |ev| == (if Truthy(ev[1].outcome) then 6 else 4)
      && ev[0] == Acquired(id)
      && ev[|ev| - 2] == Released(id)
      && ev[|ev| - 1] == Slept(cfg.delay)
      && (forall k :: 0 <= k < |ev| && ev[k].Acquired? ==> k == 0)
      && (forall k :: 0 <= k < |ev| && ev[k].Released? ==> k == |ev| - 2)
      && (forall k :: 0 <= k < |ev| && ev[k].Attempted? ==> 0 < k < |ev| - 2 && ev[k].request.payer == id)
  {
  }

  /** In an iteration the sell leg appears exactly when the buy leg succeeded, and only after it. */
  lemma IterationSellsOnlyAfterBuy(exec: Executor, cfg: Config, key: SecretKey, id: WalletId)
    ensures var ev := Iteration(exec, cfg, key, id);
      && ev[1] == Leg(exec, cfg, key, id, true)
      && ((exists k :: 0 <= k < |ev| && IsSellAttempt(ev[k])) <==> Truthy(ev[1].outcome))
      && (forall k :: 0 <= k < |ev| && IsSellAttempt(ev[k]) ==> k == 3 && ev[2] == Slept(cfg.sellDelay))
  {
    var run := Swap(exec, cfg, key, id);
    var ev := Iteration(exec, cfg, key, id);
    assert ev == [Acquired(id)] + run.events + [Released(id), Slept(cfg.delay)];
    if Truthy(run.events[0].outcome) {
      assert IsSellAttempt(ev[3]);
    } else {
      assert ev == [Acquired(id), run.events[0], Released(id), Slept(cfg.delay)];
    }
  }
}
