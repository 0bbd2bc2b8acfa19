/**
 * `NewStarLink` (tg_space_game/src/models/star_link.rs): an undirected edge
 * between two galaxy objects. Its equality and its hash ignore which side is
 * A and which is B.
 */
module StarLinks {
  import opened SchemaTypes
  import opened Models

  newtype u64 = x: int | 0 <= x < 0x1_0000_0000_0000_0000

  datatype NewStarLink = NewStarLink(aId: Id, aObjType: GalaxyObjectType, bId: Id, bObjType: GalaxyObjectType)
  {
    function SideA(): GalaxyObject
    {
      GalaxyObject(aId, aObjType)
    }

    function SideB(): GalaxyObject
    {
      GalaxyObject(bId, bObjType)
    }

    /** The link has an endpoint among `ids` (the `a_id IN ids OR b_id IN ids` filter). */
    predicate Touches(ids: set<Id>)
    {
      aId in ids || bId in ids
    }
  }

  /** `NewStarLink::new(a, b)`: both sides are recovered exactly. */
  function New(a: GalaxyObject, b: GalaxyObject): (l: NewStarLink)
    ensures l.SideA() == a && l.SideB() == b
  {
    NewStarLink(a.id, a.objType, b.id, b.objType)
  }

  /** Every link is the link built from its own two sides. */
  lemma NewFromSides(l: NewStarLink)
    ensures New(l.SideA(), l.SideB()) == l
  {
  }

  /**
   * `PartialEq::eq`: the same sides in the same order or in swapped order.
   * Equivalently, the two links have the same unordered pair of sides.
   */
  predicate Eq(l: NewStarLink, m: NewStarLink)
    ensures Eq(l, m) <==> multiset{l.SideA(), l.SideB()} == multiset{m.SideA(), m.SideB()}
  {
    var r := (l.SideA() == m.SideA() && l.SideB() == m.SideB())
          || (l.SideA() == m.SideB() && l.SideB() == m.SideA());
    PairsAsMultisets(l.SideA(), l.SideB(), m.SideA(), m.SideB());
    r
  }

  /** Two-element multisets are equal exactly when the pairs agree up to order. */
  lemma PairsAsMultisets<T>(a: T, b: T, c: T, d: T)
    ensures multiset{a, b} == multiset{c, d} <==> (a == c && b == d) || (a == d && b == c)
  {
    if multiset{a, b} == multiset{c, d} {
      assert a in multiset{c, d};
      if a == c {
        assert multiset{a, b} - multiset{a} == multiset{c, d} - multiset{c};
        assert multiset{b} == multiset{d};
        assert b in multiset{d};
      } else {
        assert multiset{a, b} - multiset{a} == multiset{c, d} - multiset{d};
        assert multiset{b} == multiset{c};
        assert b in multiset{c};
      }
    }
  }

  /** The orientation of a link does not matter to `eq`. */
  lemma OrientationIndependent(a: GalaxyObject, b: GalaxyObject)
    ensures Eq(New(a, b), New(b, a))
  {
  }

  /** `eq` holds of a link and itself or its reversal, and of nothing else. */
  lemma EqIsSameOrReversed(l: NewStarLink, m: NewStarLink)
    ensures Eq(l, m) <==> m == l || m == New(l.SideB(), l.SideA())
  {
  }

  /** `eq` is an equivalence relation, as the `Eq` marker impl claims. */
  lemma EqIsEquivalence(l: NewStarLink, m: NewStarLink, n: NewStarLink)
    ensures Eq(l, l)
    ensures Eq(l, m) ==> Eq(m, l)
    ensures Eq(l, m) && Eq(m, n) ==> Eq(l, n)
  {
  }

  function Max(x: u64, y: u64): u64 { if x < y then y else x }

  function Min(x: u64, y: u64): u64 { if x < y then x else y }

  /**
   * The words `hash` feeds to the caller's hasher: the larger side hash, then
   * the smaller. `sideHash` stands for hashing one side with a fresh
   * `DefaultHasher` and finishing it.
   */
  function HashWords(l: NewStarLink, sideHash: GalaxyObject -> u64): (w: seq<u64>)
    ensures |w| == 2 && w[0] >= w[1]
    ensures multiset(w) == multiset{sideHash(l.SideA()), sideHash(l.SideB())}
  {
    var hashA := sideHash(l.SideA());
    var hashB := sideHash(l.SideB());
    [Max(hashA, hashB), Min(hashA, hashB)]
  }

  /** Swapping the sides does not change what is hashed. */
  lemma HashOrderIndependent(a: GalaxyObject, b: GalaxyObject, sideHash: GalaxyObject -> u64)
    ensures HashWords(New(a, b), sideHash) == HashWords(New(b, a), sideHash)
  {
  }

  /** Links that `eq` identifies feed identical words: `Hash` agrees with `Eq`. */
  lemma {:induction false} HashConsistentWithEq(l: NewStarLink, m: NewStarLink, sideHash: GalaxyObject -> u64)
    requires Eq(l, m)
    ensures HashWords(l, sideHash) == HashWords(m, sideHash)
  {
    var w, v := HashWords(l, sideHash), HashWords(m, sideHash);
    assert multiset{w[0], w[1]} == multiset(w) by { assert w == [w[0], w[1]]; }
    assert multiset{v[0], v[1]} == multiset(v) by { assert v == [v[0], v[1]]; }
    PairsAsMultisets(l.SideA(), l.SideB(), m.SideA(), m.SideB());
    PairsAsMultisets(w[0], w[1], v[0], v[1]);
  }

  /** The state of a `Hasher`: the words written to it so far. */
  class Hasher {
    var written: seq<u64>

    constructor ()
      ensures written == []
    {
      written := [];
    }

    method Write(x: u64)
      modifies this
      ensures written == old(written) + [x]
    {
      written := written + [x];
    }
  }

  /** `Hash::hash`: hashes both sides apart, then feeds max and min to `state`. */
  method Hash(l: NewStarLink, sideHash: GalaxyObject -> u64, state: Hasher)
    modifies state
    ensures state.written == old(state.written) + HashWords(l, sideHash)
  {
    var hashA := sideHash(l.SideA());
    var hashB := sideHash(l.SideB());
    var hashMax := Max(hashA, hashB);
    var hashMin := Min(hashA, hashB);
    state.Write(hashMax);
    state.Write(hashMin);
  }
}
