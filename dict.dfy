/** The two things the interpreter relies on about Python dicts: a dict
    filled by assignment in a loop keeps one entry per key, holding the last
    value assigned; and iterating a dict visits every key exactly once, in an
    order Python 2 does not define. */
module Dict {

  /** The dict left by `d = {}` followed by `d[k] = v` for each pair in turn. */
  function Assigned<K, V>(pairs: seq<(K, V)>): (d: map<K, V>)
    ensures d.Keys == set i | 0 <= i < |pairs| :: pairs[i].0
    ensures forall k :: k in d ==> (k, d[k]) in pairs
    ensures forall i {:trigger LastAssignment(pairs, i)} :: 0 <= i < |pairs| && LastAssignment(pairs, i) ==> d[pairs[i].0] == pairs[i].1
  {
    if pairs == [] then map[]
    else
      var d := Assigned(pairs[..|pairs| - 1]);
      AssignStep(pairs, d);
      d[pairs[|pairs| - 1].0 := pairs[|pairs| - 1].1]
  }

  /** One more assignment: if `d` is the dict of all assignments but the
      last, then updating it by the last one gives the dict of them all. */
  lemma AssignStep<K, V>(pairs: seq<(K, V)>, d: map<K, V>)
    requires pairs != []
    requires var init := pairs[..|pairs| - 1];
      && d.Keys == (set i | 0 <= i < |init| :: init[i].0)
      && (forall k :: k in d ==> (k, d[k]) in init)
      && (forall i {:trigger LastAssignment(init, i)} :: 0 <= i < |init| && LastAssignment(init, i) ==> d[init[i].0] == init[i].1)
    ensures var r := d[pairs[|pairs| - 1].0 := pairs[|pairs| - 1].1];
      && r.Keys == (set i | 0 <= i < |pairs| :: pairs[i].0)
      && (forall k :: k in r ==> (k, r[k]) in pairs)
      && (forall i {:trigger LastAssignment(pairs, i)} :: 0 <= i < |pairs| && LastAssignment(pairs, i) ==> r[pairs[i].0] == pairs[i].1)
  {
    var init, last := pairs[..|pairs| - 1], pairs[|pairs| - 1];
    var r := d[last.0 := last.1];
    assert pairs == init + [last];
    assert (set i | 0 <= i < |init| :: init[i].0) == set i | 0 <= i < |pairs| - 1 :: pairs[i].0 by {
      forall i | 0 <= i < |init| ensures init[i] == pairs[i] { }
    }
    forall i | 0 <= i < |pairs| - 1 && LastAssignment(pairs, i) ensures r[pairs[i].0] == pairs[i].1 {
      assert init[i] == pairs[i];
      assert LastAssignment(init, i);
    }
  }

  /** No assignment after the `i`th one is to the same key. */
  ghost predicate LastAssignment<K, V>(pairs: seq<(K, V)>, i: nat)
    requires i < |pairs|
  {
    forall j :: i < j < |pairs| ==> pairs[j].0 != pairs[i].0
  }

  /** Filling an empty dict gives just the assignments. */
  lemma EmptyUnion<K, V>(m: map<K, V>)
    ensures map[] + m == m
  {
  }

  /** Updating the right operand of a map union updates the union. */
  lemma UnionUpdate<K, V>(a: map<K, V>, b: map<K, V>, k: K, v: V)
    ensures a + b[k := v] == (a + b)[k := v]
  {
  }

  /** One more assignment updates one key. */
  lemma AssignedSnoc<K, V>(pairs: seq<(K, V)>, x: (K, V))
    ensures Assigned(pairs + [x]) == Assigned(pairs)[x.0 := x.1]
  {
    assert (pairs + [x])[..|pairs|] == pairs;
  }

  /** `order` is a possible iteration order of a dict whose keys are `keys`. */
  ghost predicate Enumerates<K(!new)>(order: seq<K>, keys: set<K>)
  {
    (forall i, j :: 0 <= i < j < |order| ==> order[i] != order[j])
    && (forall k :: k in order <==> k in keys)
  }

  /** Iterating a dict takes as many steps as it has keys. */
  lemma {:induction false} EnumeratesCount<K(!new)>(order: seq<K>, keys: set<K>)
    requires Enumerates(order, keys)
    ensures |order| == |keys|
  {
    if order != [] {
      var k := order[0];
      assert Enumerates(order[1..], keys - {k}) by {
        forall x ensures x in order[1..] <==> x in keys - {k} {
          if x in order[1..] {
            var j :| 0 <= j < |order[1..]| && order[1..][j] == x;
            assert order[j + 1] == x;
          }
        }
      }
      EnumeratesCount(order[1..], keys - {k});
    }
  }
}
