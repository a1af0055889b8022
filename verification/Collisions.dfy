/** The collision checker: maps from identifiers to the set of preimages they were computed from. */
module Collisions {
  import opened Common

  /** `mapping[id].add(preimage)` on a default dictionary of sets. */
  function Add<V(==)>(mapping: map<Id, set<V>>, id: Id, preimage: V): map<Id, set<V>> {
    mapping[id := (if id in mapping then mapping[id] else {}) + {preimage}]
  }

  /** The mapping after a series of additions. */
  ghost function Collect<V(!new)>(pairs: seq<(Id, V)>): map<Id, set<V>> {
    if pairs == [] then map[]
    else
      var last := pairs[|pairs| - 1];
      Add(Collect(pairs[..|pairs| - 1]), last.0, last.1)
  }

  /** The mapping holds exactly what was added. */
  lemma {:induction false} CollectHas<V(!new)>(pairs: seq<(Id, V)>, id: Id, preimage: V)
    ensures id in Collect(pairs) && preimage in Collect(pairs)[id] <==> (id, preimage) in pairs
  {
    if pairs != [] {
      var front, last := pairs[..|pairs| - 1], pairs[|pairs| - 1];
      CollectHas(front, id, preimage);
      assert pairs == front + [last];
    }
  }

  lemma {:induction false} CollectMore<V(!new)>(pairs: seq<(Id, V)>, id: Id, preimage: V)
    ensures Collect(pairs + [(id, preimage)]) == Add(Collect(pairs), id, preimage)
  {
    var longer := pairs + [(id, preimage)];
    assert longer[..|longer| - 1] == pairs;
  }

  /** The identifiers that `collision_count` counts. */
  ghost function Colliding<V(!new)>(mapping: map<Id, set<V>>): set<Id> {
    set k | k in mapping && |mapping[k]| > 1
  }

  /** `collision_count`. */
  method CollisionCount<V(!new, ==)>(mapping: map<Id, set<V>>) returns (n: nat)
    ensures n == |Colliding(mapping)|
  {
    n := 0;
    var todo := mapping.Keys;
    ghost var counted: set<Id> := {};
    while todo != {}
      invariant todo <= mapping.Keys
      invariant counted == Colliding(mapping) - todo && n == |counted|
      decreases todo
    {
      var k :| k in todo;
      if |mapping[k]| > 1 {
        n := n + 1;
        assert Colliding(mapping) - (todo - {k}) == counted + {k};
        counted := counted + {k};
      } else {
        assert Colliding(mapping) - (todo - {k}) == counted;
      }
      todo := todo - {k};
    }
    assert Colliding(mapping) - {} == Colliding(mapping);
  }

  lemma {:induction false} SeveralMeans<V(!new)>(vs: set<V>)
    ensures |vs| > 1 <==> exists v, w :: v in vs && w in vs && v != w
  {
    if |vs| > 1 {
      var v :| v in vs;
      assert |vs - {v}| > 0;
      var w :| w in vs - {v};
    }
    if v, w :| v in vs && w in vs && v != w {
      assert w in vs - {v} && |vs| == |vs - {v}| + 1;
    }
  }

  /** An identifier is counted if and only if it was added with two different preimages. */
  lemma {:induction false} CountedIff<V(!new)>(pairs: seq<(Id, V)>, id: Id)
    ensures id in Colliding(Collect(pairs)) <==>
              exists v, w :: (id, v) in pairs && (id, w) in pairs && v != w
  {
    forall v
      ensures id in Collect(pairs) && v in Collect(pairs)[id] <==> (id, v) in pairs
    {
      CollectHas(pairs, id, v);
    }
    if id in Collect(pairs) {
      SeveralMeans(Collect(pairs)[id]);
    }
  }

  /** The count is zero if and only if no identifier was added with two different preimages. */
  lemma {:induction false} NoCollisionMeans<V(!new)>(pairs: seq<(Id, V)>)
    ensures |Colliding(Collect(pairs))| == 0 <==>
              forall id, v, w :: (id, v) in pairs && (id, w) in pairs ==> v == w
  {
    var counted := Colliding(Collect(pairs));
    if |counted| > 0 {
      var id :| id in counted;
      CountedIff(pairs, id);
    }
    forall id, v, w | |counted| == 0 && (id, v) in pairs && (id, w) in pairs
      ensures v == w
    {
      CountedIff(pairs, id);
      assert id !in counted;
    }
  }
}
