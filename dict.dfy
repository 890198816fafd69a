/** A Python dictionary filled by a loop of `d[k] = v` assignments, starting
    from `{}`: later assignments to the same key overwrite earlier ones. */
module Dict {

  /** The dictionary left after assigning every pair of `pairs`, in order. */
  function Assigned<K, V>(pairs: seq<(K, V)>): map<K, V>
  {
    if pairs == [] then map[]
    else Assigned(pairs[..|pairs| - 1])[pairs[|pairs| - 1].0 := pairs[|pairs| - 1].1]
  }

  /** No pair after position `i` assigns the key that pair `i` assigns. */
  ghost predicate LastWithKey<K, V>(pairs: seq<(K, V)>, i: nat)
    requires i < |pairs|
  {
    forall j :: i < j < |pairs| ==> pairs[j].0 != pairs[i].0
  }

  /** Assigning one more pair extends the previous dictionary by that pair. */
  lemma AssignedSnoc<K, V>(pairs: seq<(K, V)>, k: K, v: V)
    ensures Assigned(pairs + [(k, v)]) == Assigned(pairs)[k := v]
  {
    assert (pairs + [(k, v)])[..|pairs|] == pairs;
  }

  /** The keys of the dictionary are exactly the keys that were assigned. */
  lemma {:induction false} AssignedKeys<K, V>(pairs: seq<(K, V)>)
    ensures Assigned(pairs).Keys == set i | 0 <= i < |pairs| :: pairs[i].0
  {
    if pairs != [] {
      var init := pairs[..|pairs| - 1];
      AssignedKeys(init);
      assert forall i :: 0 <= i < |init| ==> init[i] == pairs[i];
    }
  }

  /** A key holds the value of the last pair that assigned it. */
  lemma {:induction false} AssignedLastWins<K, V>(pairs: seq<(K, V)>, i: nat)
    requires i < |pairs| && LastWithKey(pairs, i)
    ensures pairs[i].0 in Assigned(pairs) && Assigned(pairs)[pairs[i].0] == pairs[i].1
  {
    if i < |pairs| - 1 {
      var init := pairs[..|pairs| - 1];
      assert init[i] == pairs[i];
      assert LastWithKey(init, i) by {
        forall j | i < j < |init| ensures init[j].0 != init[i].0 {
          assert init[j] == pairs[j];
        }
      }
      AssignedLastWins(init, i);
    }
  }
}
