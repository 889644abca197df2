/** The ids of the wallets in the keys file, and how many of them there can be. */
module Wallets {
  import opened BotTypes

  /** The ids of all the keys, in the key-to-id decoding idOf. */
  function PoolIds(keys: seq<SecretKey>, idOf: SecretKey -> WalletId): set<WalletId> {
    if keys == [] then {} else {idOf(keys[0])} + PoolIds(keys[1..], idOf)
  }

  /** No two keys decode to the same wallet. */
  predicate DistinctIds(keys: seq<SecretKey>, idOf: SecretKey -> WalletId) {
    forall i, j :: 0 <= i < j < |keys| ==> idOf(keys[i]) != idOf(keys[j])
  }

  /** An id belongs to the pool exactly when some key decodes to it. */
  lemma {:induction false} InPoolIds(keys: seq<SecretKey>, idOf: SecretKey -> WalletId, id: WalletId)
    ensures id in PoolIds(keys, idOf) <==> exists i :: 0 <= i < |keys| && idOf(keys[i]) == id
  {
    if keys != [] {
      InPoolIds(keys[1..], idOf, id);
      if id in PoolIds(keys[1..], idOf) {
        var i :| 0 <= i < |keys[1..]| && idOf(keys[1..][i]) == id;
        assert idOf(keys[i + 1]) == id;
      }
      if exists i :: 0 <= i < |keys| && idOf(keys[i]) == id {
        var i :| 0 <= i < |keys| && idOf(keys[i]) == id;
        if i > 0 {
          assert idOf(keys[1..][i - 1]) == id;
        }
      }
    }
  }

  /** The pool never has more ids than keys, and exactly as many when the ids are distinct. */
  lemma {:induction false} PoolIdsCount(keys: seq<SecretKey>, idOf: SecretKey -> WalletId)
    ensures |PoolIds(keys, idOf)| <= |keys|
    ensures DistinctIds(keys, idOf) ==> |PoolIds(keys, idOf)| == |keys|
  {
    if keys != [] {
      PoolIdsCount(keys[1..], idOf);
      if DistinctIds(keys, idOf) {
        assert DistinctIds(keys[1..], idOf) by {
          forall i, j | 0 <= i < j < |keys[1..]|
            ensures idOf(keys[1..][i]) != idOf(keys[1..][j])
          {
            assert keys[1..][i] == keys[i + 1] && keys[1..][j] == keys[j + 1];
          }
        }
        forall i | 0 <= i < |keys[1..]| ensures idOf(keys[1..][i]) != idOf(keys[0]) {
          assert keys[1..][i] == keys[i + 1];
        }
        InPoolIds(keys[1..], idOf, idOf(keys[0]));
      }
    }
  }

  lemma {:induction false} SubsetCount<T>(a: set<T>, b: set<T>)
    requires a <= b
    ensures |a| <= |b|
    decreases |a|
  {
    if a != {} {
      var x :| x in a;
      SubsetCount(a - {x}, b - {x});
    }
  }

  /** A leased set inside the pool is no bigger than the keys file. */
  lemma LeasedWithinPool(keys: seq<SecretKey>, idOf: SecretKey -> WalletId, leased: set<WalletId>)
    requires leased <= PoolIds(keys, idOf)
    ensures |leased| <= |keys|
  {
    SubsetCount(leased, PoolIds(keys, idOf));
    PoolIdsCount(keys, idOf);
  }

  /** While fewer ids are leased than the pool holds, some key decodes to an unleased wallet,
      so a redraw can still find one. */
  lemma FreeKeyExists(keys: seq<SecretKey>, idOf: SecretKey -> WalletId, leased: set<WalletId>)
    requires |leased| < |PoolIds(keys, idOf)|
    ensures exists i :: 0 <= i < |keys| && idOf(keys[i]) !in leased
  {
    if forall i :: 0 <= i < |keys| ==> idOf(keys[i]) in leased {
      forall id | id in PoolIds(keys, idOf) ensures id in leased {
        InPoolIds(keys, idOf, id);
      }
      SubsetCount(PoolIds(keys, idOf), leased);
      assert false;
    }
  }
}
