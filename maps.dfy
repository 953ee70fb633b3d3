/**
  The map left behind by a loop that assigns `m[k] = v` for each pair of a
  sequence in turn, starting from an empty map: the Go idiom behind both the
  `<param>` map of a catalog entry and the table-descriptor index.
*/
module Maps {

  function Assign<K(==), V>(pairs: seq<(K, V)>): map<K, V> {
    if pairs == [] then map[]
    else Assign(pairs[..|pairs| - 1])[pairs[|pairs| - 1].0 := pairs[|pairs| - 1].1]
  }

  /** Its keys are exactly the keys that were assigned. */
  lemma {:induction false} AssignKeys<K, V>(pairs: seq<(K, V)>)
    ensures Assign(pairs).Keys == set k | 0 <= k < |pairs| :: pairs[k].0
  {
    if pairs != [] {
      var n := |pairs| - 1;
      var front := pairs[..n];
      AssignKeys(front);
      assert (set k | 0 <= k < |pairs| :: pairs[k].0)
          == (set k | 0 <= k < |front| :: front[k].0) + {pairs[n].0} by {
        forall k | 0 <= k < n ensures pairs[k].0 == front[k].0 { }
      }
    }
  }

  /** A key holds the value of its last assignment. */
  lemma {:induction false} AssignLastWins<K, V>(pairs: seq<(K, V)>, i: nat)
    requires i < |pairs|
    requires forall j :: i < j < |pairs| ==> pairs[j].0 != pairs[i].0
    ensures pairs[i].0 in Assign(pairs) && Assign(pairs)[pairs[i].0] == pairs[i].1
  {
    var n := |pairs| - 1;
    if i < n {
      var front := pairs[..n];
      assert front[i] == pairs[i];
      AssignLastWins(front, i);
    }
  }

  /** Appending one assignment is one more update of the map. */
  lemma AssignSnoc<K, V>(pairs: seq<(K, V)>, key: K, value: V)
    ensures Assign(pairs + [(key, value)]) == Assign(pairs)[key := value]
  {
    assert (pairs + [(key, value)])[..|pairs|] == pairs;
  }
}
