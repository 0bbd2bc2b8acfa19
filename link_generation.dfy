/**
 * The interface of `generate_links` as the galaxy code uses it. Its body and
 * the random weights it is fed (`exp_weights`) are not part of this model:
 * a generator is any function from weighted siblings, a target edge count and
 * a uniqueness flag to a list of links, provided it only links the siblings
 * it was given.
 */
module LinkGeneration {
  import opened Models
  import opened StarLinks

  /** `rand::distributions::Weighted<GalaxyObject>`. */
  datatype Weighted = Weighted(weight: nat, item: GalaxyObject)

  type Generator = (seq<Weighted>, nat, bool) -> seq<NewStarLink>

  /** The handles in a weighted slice. */
  function Items(nodes: seq<Weighted>): set<GalaxyObject>
  {
    set w | w in nodes :: w.item
  }

  /** Every link a generator produces has both sides among the slice it was given. */
  ghost predicate KeepsLinksAmongSiblings(gen: Generator)
  {
    forall nodes, target, unique, l | l in gen(nodes, target, unique) ::
      l.SideA() in Items(nodes) && l.SideB() in Items(nodes)
  }

  /** Both sides of a link such a generator returns are among the nodes it was given. */
  lemma GeneratedSides(gen: Generator, nodes: seq<Weighted>, target: nat, unique: bool, l: NewStarLink)
    requires KeepsLinksAmongSiblings(gen) && l in gen(nodes, target, unique)
    ensures l.SideA() in Items(nodes) && l.SideB() in Items(nodes)
  {
  }

  /** `items.iter().zip(weights)`: pairs up to the shorter of the two. */
  function Zip(items: seq<GalaxyObject>, weights: seq<nat>): (r: seq<Weighted>)
    ensures |r| == if |items| <= |weights| then |items| else |weights|
    ensures forall i :: 0 <= i < |r| ==> r[i] == Weighted(weights[i], items[i])
    ensures Items(r) <= set g | g in items
  {
    if items == [] || weights == [] then []
    else [Weighted(weights[0], items[0])] + Zip(items[1..], weights[1..])
  }
}
