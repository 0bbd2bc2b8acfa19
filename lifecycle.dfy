/**
 * Generating a sector and deleting it again: the cascade delete removes
 * exactly what `generate_star_sector` added.
 */
module Lifecycle {
  import opened Wrappers
  import opened SchemaTypes
  import opened Models
  import opened StarLinks
  import opened LinkGeneration
  import opened GalaxyTables
  import opened Cascade
  import opened Expansion

  /** What filling a sector does to the tables, in both branches. */
  lemma FillSummary(t: Tables, sectorId: Id, stars: real, radius: real, weights: seq<nat>, gen: Generator)
    requires Valid(t) && sectorId in t.sectors && KeepsLinksAmongSiblings(gen)
    ensures var a := FillSpec(t, sectorId, stars, radius, weights, gen);
      && Valid(a) && a.sectors == t.sectors
      && (forall id | id in t.objects :: id in a.objects && a.objects[id] == t.objects[id])
      && (forall id | id in t.futures :: id in a.futures && a.futures[id] == t.futures[id])
      && (forall id | id in t.systems :: id in a.systems && a.systems[id] == t.systems[id])
      && (forall id | id in a.objects && id !in t.objects ::
            || (id in a.systems && a.systems[id].sectorId == sectorId)
            || (id in a.futures && a.futures[id].parentId == sectorId))
      && (forall k | k in t.links :: k in a.links && a.links[k] == t.links[k])
      && (forall k | k in a.links && k !in t.links :: t.nextId <= a.links[k].aId < a.nextId)
  {
    FillValid(t, sectorId, stars, radius, weights, gen);
    FillKeepsLinks(t, sectorId, stars, radius, weights, gen);
    FillNewLinks(t, sectorId, stars, radius, weights, gen);
    if IsLeafSector(stars) {
      FillLeafEffect(t, sectorId, stars, radius, weights, gen);
    } else {
      FillFutureEffect(t, sectorId, stars, radius, weights, gen);
    }
  }

  /**
   * In a state that grew from `t` by a fresh sector `root` and children of
   * `root`, the subtree of `root` is exactly what was added.
   */
  lemma SubtreeOfAdded(t: Tables, a: Tables, root: Id)
    requires Valid(a) && root in a.sectors && root !in t.objects
    requires forall id | id in t.objects :: id < root
    requires forall id | id in t.objects :: id in a.objects
    requires forall id | id in a.objects && id !in t.objects && id != root ::
      || (id in a.systems && a.systems[id].sectorId == root)
      || (id in a.futures && a.futures[id].parentId == root)
    ensures Subtree(a, root) == a.objects.Keys - t.objects.Keys
  {
    forall x | x in Subtree(a, root)
      ensures x in a.objects && x !in t.objects
    {
      if x != root {
        if x in a.sectors && Under(a, x, root) {
          UnderBound(a, x, root);
        } else if x in a.futures && Under(a, a.futures[x].parentId, root) {
          UnderBound(a, a.futures[x].parentId, root);
        } else {
          assert x in a.systems && Under(a, a.systems[x].sectorId, root);
          UnderBound(a, a.systems[x].sectorId, root);
        }
      }
    }
    forall x | x in a.objects && x !in t.objects
      ensures x in Subtree(a, root)
    {
      if x != root {
        assert Under(a, root, root);
      }
    }
  }

  /** Removing the added keys from a map that extends `small` gives `small` back. */
  lemma RemoveAdded<V>(m: map<Id, V>, small: map<Id, V>, N: set<Id>)
    requires forall id | id in small :: id in m && m[id] == small[id]
    requires forall id | id in m :: id in small || id in N
    requires small.Keys !! N
    ensures m - N == small
  {
    assert (m - N).Keys == small.Keys;
  }

  /** An old id keeps its kind, so it keeps the table it is in. */
  lemma OldIdSameTable(t: Tables, a: Tables, id: Id)
    requires Valid(t) && Valid(a)
    requires id in t.objects && id in a.objects && a.objects[id] == t.objects[id]
    ensures id in a.sectors ==> id in t.sectors
    ensures id in a.futures ==> id in t.futures
    ensures id in a.systems ==> id in t.systems
  {
  }

  /**
   * Erasing everything added on top of `t` gives `t` back, up to the serial
   * counters.
   */
  lemma EraseAdded(t: Tables, a: Tables)
    requires Valid(t) && Valid(a)
    requires forall id | id in t.objects :: id in a.objects && a.objects[id] == t.objects[id]
    requires forall id | id in t.sectors :: id in a.sectors && a.sectors[id] == t.sectors[id]
    requires forall id | id in t.futures :: id in a.futures && a.futures[id] == t.futures[id]
    requires forall id | id in t.systems :: id in a.systems && a.systems[id] == t.systems[id]
    requires forall k | k in t.links :: k in a.links && a.links[k] == t.links[k]
    requires forall k | k in a.links && k !in t.links :: a.links[k].aId !in t.objects
    ensures Erase(a, a.objects.Keys - t.objects.Keys) == t.(nextId := a.nextId, nextLinkId := a.nextLinkId)
  {
    var N := a.objects.Keys - t.objects.Keys;
    forall id | id in a.objects && id in t.objects
      ensures (id in a.sectors ==> id in t.sectors) && (id in a.futures ==> id in t.futures)
      ensures id in a.systems ==> id in t.systems
    {
      OldIdSameTable(t, a, id);
    }
    RemoveAdded(a.objects, t.objects, N);
    RemoveAdded(a.sectors, t.sectors, N);
    RemoveAdded(a.futures, t.futures, N);
    RemoveAdded(a.systems, t.systems, N);
    EraseAddedLinks(t, a, N);
  }

  lemma EraseAddedLinks(t: Tables, a: Tables, N: set<Id>)
    requires Valid(t) && Valid(a) && N == a.objects.Keys - t.objects.Keys
    requires forall id | id in t.objects :: id in a.objects
    requires forall k | k in t.links :: k in a.links && a.links[k] == t.links[k]
    requires forall k | k in a.links && k !in t.links :: a.links[k].aId !in t.objects
    ensures LinksNotTouching(a.links, N) == t.links
  {
    forall k | k in t.links
      ensures !t.links[k].Touches(N)
    {
      assert LinkValid(t, t.links[k]);
    }
    forall k | k in a.links && k !in t.links
      ensures a.links[k].Touches(N)
    {
      assert LinkValid(a, a.links[k]);
    }
    assert LinksNotTouching(a.links, N).Keys == t.links.Keys;
  }

  /** A successful `generate_star_sector` adds a fresh sector and children of it only. */
  lemma GenerateAddsSubtree(t: Tables, stars: real, radius: real, parent: Option<Id>, weights: seq<nat>,
                            gen: Generator)
    requires Valid(t) && KeepsLinksAmongSiblings(gen)
    requires GenerateSpec(t, stars, radius, parent, weights, gen).result.Ok?
    ensures var r := GenerateSpec(t, stars, radius, parent, weights, gen);
      var a := r.state;
      var root := r.result.value.id;
      && Valid(a) && root in a.sectors && root !in a.futures && root !in a.systems && root !in t.objects
      && (forall id | id in t.objects :: id < root && id in a.objects)
      && (forall id | id in a.objects && id !in t.objects && id != root ::
            || (id in a.systems && a.systems[id].sectorId == root)
            || (id in a.futures && a.futures[id].parentId == root))
  {
    var root := t.nextId;
    var t1 := CreateSpec(t, parent).state;
    CreateValid(t, parent);
    assert t1.objects == t.objects[root := Sector];
    FillSummary(t1, root, stars, radius, weights, gen);
  }

  /** Every row and link of `t` is in `a`, unchanged. */
  ghost predicate Keeps(t: Tables, a: Tables)
  {
    && (forall id | id in t.objects :: id in a.objects && a.objects[id] == t.objects[id])
    && (forall id | id in t.sectors :: id in a.sectors && a.sectors[id] == t.sectors[id])
    && (forall id | id in t.futures :: id in a.futures && a.futures[id] == t.futures[id])
    && (forall id | id in t.systems :: id in a.systems && a.systems[id] == t.systems[id])
    && (forall k | k in t.links :: k in a.links && a.links[k] == t.links[k])
  }

  lemma KeepsTransitive(t: Tables, m: Tables, a: Tables)
    requires Keeps(t, m) && Keeps(m, a)
    ensures Keeps(t, a)
  {
  }

  /** A successful `create_star_sector` keeps every row and link already there. */
  lemma CreateKeeps(t: Tables, parent: Option<Id>)
    requires Valid(t) && CreateSpec(t, parent).result.Ok?
    ensures Keeps(t, CreateSpec(t, parent).state)
  {
    var t1 := CreateSpec(t, parent).state;
    assert t1.objects == t.objects[t.nextId := Sector] && t1.sectors == t.sectors[t.nextId := parent];
    assert t.nextId !in t.objects;
  }

  /** A successful `generate_star_sector` keeps every row and link already there. */
  lemma GenerateKeeps(t: Tables, stars: real, radius: real, parent: Option<Id>, weights: seq<nat>, gen: Generator)
    requires Valid(t) && KeepsLinksAmongSiblings(gen)
    requires GenerateSpec(t, stars, radius, parent, weights, gen).result.Ok?
    ensures var a := GenerateSpec(t, stars, radius, parent, weights, gen).state;
      && Keeps(t, a)
      && (forall k | k in a.links && k !in t.links :: a.links[k].aId !in t.objects)
  {
    var root := t.nextId;
    var t1 := CreateSpec(t, parent).state;
    CreateValid(t, parent);
    CreateKeeps(t, parent);
    var a := FillSpec(t1, root, stars, radius, weights, gen);
    FillSummary(t1, root, stars, radius, weights, gen);
    assert Keeps(t1, a);
    KeepsTransitive(t, t1, a);
  }

  /**
   * Deleting a freshly generated sector restores every table; only the two
   * serial counters keep their advance.
   */
  lemma GenerateThenDelete(t: Tables, stars: real, radius: real, parent: Option<Id>, weights: seq<nat>,
                           gen: Generator)
    requires Valid(t) && KeepsLinksAmongSiblings(gen)
    requires GenerateSpec(t, stars, radius, parent, weights, gen).result.Ok?
    ensures var r := GenerateSpec(t, stars, radius, parent, weights, gen);
      AfterDeleteSector(r.state, r.result.value.id) == t.(nextId := r.state.nextId, nextLinkId := r.state.nextLinkId)
  {
    var r := GenerateSpec(t, stars, radius, parent, weights, gen);
    GenerateAddsSubtree(t, stars, radius, parent, weights, gen);
    GenerateKeeps(t, stars, radius, parent, weights, gen);
    SubtreeOfAdded(t, r.state, r.result.value.id);
    DeleteSectorErasesSubtree(r.state, r.result.value.id);
    EraseAdded(t, r.state);
  }

  /** Hence the object and link counts return to what they were. */
  lemma GenerateThenDeleteCounts(t: Tables, stars: real, radius: real, parent: Option<Id>, weights: seq<nat>,
                                 gen: Generator)
    requires Valid(t) && KeepsLinksAmongSiblings(gen)
    requires GenerateSpec(t, stars, radius, parent, weights, gen).result.Ok?
    ensures var r := GenerateSpec(t, stars, radius, parent, weights, gen);
      && |AfterDeleteSector(r.state, r.result.value.id).objects| == |t.objects|
      && |AfterDeleteSector(r.state, r.result.value.id).links| == |t.links|
  {
    GenerateThenDelete(t, stars, radius, parent, weights, gen);
  }
}
