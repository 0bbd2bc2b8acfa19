/**
 * The database-backed operations of `galaxy_objects.rs` over a store whose
 * tables are fields updated in place. Each method is proved to leave the
 * store in the state the corresponding function of `GalaxyTables`,
 * `Cascade` or `Expansion` prescribes; a failed transaction restores the
 * state it started from.
 */
module Store {
  import opened Wrappers
  import opened SchemaTypes
  import opened Models
  import opened StarLinks
  import opened LinkGeneration
  import opened GalaxyTables
  import opened Cascade
  import opened Expansion

  class GalaxyStore {
    /** `galaxy_objects`: the registry of ids and kinds. */
    var objects: map<Id, GalaxyObjectType>
    /** `star_sectors`: id to parent sector. */
    var sectors: map<Id, Option<Id>>
    /** `star_sector_futures`. */
    var futures: map<Id, FutureRow>
    /** `star_systems`. */
    var systems: map<Id, SystemRow>
    /** `star_links`, keyed by their serial id. */
    var links: map<LinkId, NewStarLink>
    /** The next value of the galaxy object id sequence. */
    var nextId: Id
    /** The next value of the link id sequence. */
    var nextLinkId: LinkId

    function State(): Tables
      reads this
    {
      Tables(objects, sectors, futures, systems, links, nextId, nextLinkId)
    }

    ghost predicate Valid()
      reads this
    {
      GalaxyTables.Valid(State())
    }

    constructor()
      ensures State() == Empty() && Valid()
    {
      objects, sectors, futures, systems, links := map[], map[], map[], map[], map[];
      nextId, nextLinkId := 1, 1;
      EmptyValid();
    }

    /** Rolling a transaction back to the state it started from. */
    method Restore(t: Tables)
      modifies this
      ensures State() == t
    {
      objects, sectors, futures, systems, links := t.objects, t.sectors, t.futures, t.systems, t.links;
      nextId, nextLinkId := t.nextId, t.nextLinkId;
    }

    /** `update_galaxy_object_type`: succeeds exactly when one row has the id. */
    method UpdateGalaxyObjectType(objectId: Id, kind: GalaxyObjectType) returns (r: Result<(), Error>)
      modifies this
      ensures r.Ok? <==> objectId in old(objects)
      ensures r.Err? ==> r.error == NotFound
      ensures State() == old(State()).(objects := if r.Ok? then old(objects)[objectId := kind] else old(objects))
    {
      if objectId in objects {
        objects := objects[objectId := kind];
        r := Ok(());
      } else {
        r := Err(NotFound);
      }
    }

    /** `get_links_for_objects`: the links with an endpoint among `ids`. */
    function GetLinksForObjects(ids: set<Id>): (r: map<LinkId, NewStarLink>)
      reads this
      ensures r.Keys <= links.Keys
      ensures forall k | k in links :: k in r <==> (links[k].aId in ids || links[k].bId in ids)
      ensures forall k | k in r :: r[k] == links[k]
    {
      LinksTouching(links, ids)
    }

    /** `get_star_sector_children_futures`: the futures belonging to `sector`. */
    function GetStarSectorChildrenFutures(sector: StarSector): (r: set<StarSectorFuture>)
      reads this
      ensures forall f | f in r ::
        f.id in futures && f == StarSectorFuture(f.id, sector.id, futures[f.id].radius, futures[f.id].stars)
      ensures forall id | id in futures && futures[id].parentId == sector.id ::
        StarSectorFuture(id, sector.id, futures[id].radius, futures[id].stars) in r
    {
      set id | id in futures && futures[id].parentId == sector.id ::
        StarSectorFuture(id, sector.id, futures[id].radius, futures[id].stars)
    }

    /**
     * `delete_links_for_objects`: removes exactly the links
     * `GetLinksForObjects(ids)` lists, and reports how many.
     */
    method DeleteLinksForObjects(ids: set<Id>) returns (count: nat)
      modifies this
      ensures count == |old(GetLinksForObjects(ids))|
      ensures links.Keys == old(links).Keys - old(GetLinksForObjects(ids)).Keys
      ensures State() == old(State()).(links := LinksNotTouching(old(links), ids))
    {
      var gone := GetLinksForObjects(ids);
      LinksPartition(links, ids);
      links := LinksNotTouching(links, ids);
      count := |gone|;
    }

    /** `delete_galaxy_objects`: removes the registry rows of `ids`, reporting how many existed. */
    method DeleteGalaxyObjects(ids: set<Id>) returns (count: nat)
      modifies this
      ensures count == |old(objects).Keys * ids|
      ensures State() == old(State()).(objects := old(objects) - ids)
    {
      count := |objects.Keys * ids|;
      objects := objects - ids;
    }

    /** `delete_sector_futures`: the futures of `sectorId` with their links and registry rows. */
    method DeleteSectorFutures(sectorId: Id) returns (count: nat)
      modifies this
      ensures var ids := ChildFutures(old(State()), sectorId);
        State() == old(State()).(links := LinksNotTouching(old(links), ids), futures := old(futures) - ids,
                                 objects := old(objects) - ids)
      ensures old(Valid()) ==> State() == Erase(old(State()), ChildFutures(old(State()), sectorId))
      ensures old(Valid()) ==> count == |ChildFutures(old(State()), sectorId)|
    {
      ghost var t0 := State();
      var ids := ChildFutures(State(), sectorId);
      var _ := DeleteLinksForObjects(ids);
      futures := futures - ids;
      count := DeleteGalaxyObjects(ids);
      if GalaxyTables.Valid(t0) {
        EraseLeaves(t0, ids);
      }
    }

    /** `delete_sector_systems`: the systems of `sectorId` with their links and registry rows. */
    method DeleteSectorSystems(sectorId: Id) returns (count: nat)
      modifies this
      ensures var ids := ChildSystems(old(State()), sectorId);
        State() == old(State()).(links := LinksNotTouching(old(links), ids), systems := old(systems) - ids,
                                 objects := old(objects) - ids)
      ensures old(Valid()) ==> State() == Erase(old(State()), ChildSystems(old(State()), sectorId))
      ensures old(Valid()) ==> count == |ChildSystems(old(State()), sectorId)|
    {
      ghost var t0 := State();
      var ids := ChildSystems(State(), sectorId);
      var _ := DeleteLinksForObjects(ids);
      systems := systems - ids;
      count := DeleteGalaxyObjects(ids);
      if GalaxyTables.Valid(t0) {
        EraseLeaves(t0, ids);
      }
    }

    /** The measure the recursive delete decreases: parents have smaller ids than their children. */
    function Rank(sectorId: Id): nat
      reads this
    {
      if sectorId < nextId then nextId - sectorId else 0
    }

    /**
     * `delete_sector`, recursive as written: the leaves, then every child
     * sector, then the sector's own links and rows.
     */
    method DeleteSector(sectorId: Id)
      requires Valid()
      modifies this
      decreases Rank(sectorId), 2
      ensures State() == AfterDeleteSector(old(State()), sectorId)
    {
      ghost var t0 := State();
      DeleteSectorLeaves(sectorId);
      var children := ChildSectors(State(), sectorId);
      DeleteChildSectors(sectorId, children, t0);
      ChildrenCoverSubtree(t0, sectorId);
      DeleteSectorRow(sectorId);
    }

    /** The first two statements of `delete_sector`: the futures, then the systems of `sectorId`. */
    method DeleteSectorLeaves(sectorId: Id)
      requires Valid()
      modifies this
      ensures State() == Erase(old(State()), Leaves(old(State()), sectorId))
      ensures ChildSectors(State(), sectorId) == ChildSectors(old(State()), sectorId)
    {
      ghost var t0 := State();
      DeleteLeavesStep(t0, sectorId);
      var _ := DeleteSectorFutures(sectorId);
      ghost var t1 := State();
      assert t1 == Erase(t0, ChildFutures(t0, sectorId));
      var _ := DeleteSectorSystems(sectorId);
      assert State() == Erase(t1, ChildSystems(t0, sectorId));
    }

    /** The last three statements of `delete_sector`: the links, the sector row and the registry row. */
    method DeleteSectorRow(sectorId: Id)
      modifies this
      ensures State() == RemoveSectorRow(old(State()), sectorId)
    {
      var _ := DeleteLinksForObjects({sectorId});
      sectors := sectors - {sectorId};
      var _ := DeleteGalaxyObjects({sectorId});
    }

    /**
     * The loop of `delete_sector` over the child sectors, entered with the
     * leaves of `sectorId` already erased from `t0`; on exit the subtrees of
     * all `children` are erased as well.
     */
    method DeleteChildSectors(sectorId: Id, children: set<Id>, ghost t0: Tables)
      requires GalaxyTables.Valid(t0) && children == ChildSectors(t0, sectorId)
      requires State() == Erase(t0, Leaves(t0, sectorId))
      modifies this
      decreases Rank(sectorId), 1
      ensures State() == Erase(t0, Leaves(t0, sectorId) + Below(t0, children))
    {
      var todo := children;
      assert Leaves(t0, sectorId) + Below(t0, children - todo) == Leaves(t0, sectorId);
      while todo != {}
        invariant todo <= children
        invariant State() == Erase(t0, Leaves(t0, sectorId) + Below(t0, children - todo))
        decreases |todo|
      {
        var c :| c in todo;
        DeleteChildSector(sectorId, children, todo, c, t0);
        todo := todo - {c};
      }
      assert children - todo == children;
    }

    /**
     * One turn of that loop, the recursive `delete_sector(c)` for a child `c`
     * still to do: with the leaves and the children already done erased, it
     * erases the subtree of `c`.
     */
    method DeleteChildSector(sectorId: Id, children: set<Id>, todo: set<Id>, c: Id, ghost t0: Tables)
      requires GalaxyTables.Valid(t0) && children == ChildSectors(t0, sectorId)
      requires todo <= children && c in todo
      requires State() == Erase(t0, Leaves(t0, sectorId) + Below(t0, children - todo))
      modifies this
      decreases Rank(sectorId), 0
      ensures State() == Erase(t0, Leaves(t0, sectorId) + Below(t0, children - (todo - {c})))
    {
      ChildStillThere(t0, sectorId, children - todo, c);
      DeleteChildStep(t0, sectorId, children - todo, c);
      DoneGrows(children, todo, c);
      DeleteSector(c);
    }

    /** The corrected `delete_sector`: an id that is not a sector is refused. */
    method DeleteSectorChecked(sectorId: Id) returns (r: Result<(), Error>)
      requires Valid()
      modifies this
      ensures State() == Cascade.DeleteSectorChecked(old(State()), sectorId).state
      ensures r == Cascade.DeleteSectorChecked(old(State()), sectorId).result
      ensures Valid()
    {
      if sectorId in objects && objects[sectorId] != Sector {
        r := Err(NotFound);
        return;
      }
      ghost var t0 := State();
      DeleteSector(sectorId);
      DeleteSectorValid(t0, sectorId);
      r := Ok(());
    }

    /** `create_star_sector`: the registry row first; a missing parent rolls both back. */
    method CreateStarSector(parent: Option<Id>) returns (r: Result<StarSector, Error>)
      modifies this
      ensures State() == CreateSpec(old(State()), parent).state
      ensures r == CreateSpec(old(State()), parent).result
    {
      ghost var t0 := State();
      var t := State();
      var id := nextId;
      objects := objects[id := Sector];
      nextId := id + 1;
      if parent.Some? && parent.value !in sectors {
        Restore(t);
        r := Err(ForeignKeyViolation);
        return;
      }
      sectors := sectors[id := parent];
      r := Ok(StarSector(id, parent));
    }

    /** The batch insert of `n` registry rows of one kind; they take the next `n` ids. */
    method InsertGalaxyObjects(kind: GalaxyObjectType, n: nat) returns (first: Id)
      modifies this
      ensures first == old(nextId)
      ensures State() == old(State()).(objects := old(objects) + map i | i in IdRange(first, n) :: kind,
                                       nextId := first + n)
    {
      first := nextId;
      objects := objects + map i | i in IdRange(first, n) :: kind;
      nextId := first + n;
    }

    /** The batch insert of `star_systems` rows named `STAR_NAME` for the ids `first`, ..., `first + n - 1`. */
    method InsertStarSystems(first: Id, n: nat, sectorId: Id)
      modifies this
      ensures State() == old(State()).(systems := old(systems) + map i | i in IdRange(first, n) ::
                                                   SystemRow(STAR_NAME, sectorId))
    {
      systems := systems + map i | i in IdRange(first, n) :: SystemRow(STAR_NAME, sectorId);
    }

    /** The batch insert of `SUB_AMOUNT` `star_sector_futures` rows from id `first` on. */
    method InsertSectorFutures(first: Id, sectorId: Id, radius: real, stars: real)
      modifies this
      ensures State() == old(State()).(futures := old(futures) + map i | i in IdRange(first, SUB_AMOUNT) ::
                                                   FutureRow(sectorId, radius, stars))
    {
      futures := futures + map i | i in IdRange(first, SUB_AMOUNT) :: FutureRow(sectorId, radius, stars);
    }

    /** The batch insert of `star_links` rows; they take the next link ids. */
    method InsertStarLinks(ls: seq<NewStarLink>)
      modifies this
      ensures State() == InsertLinks(old(State()), ls)
    {
      links := links + map k | k in IdRange(nextLinkId, |ls|) :: ls[k - nextLinkId];
      nextLinkId := nextLinkId + |ls|;
    }

    /**
     * `fill_star_sector`: systems or futures under `sector`, then the links
     * the generator draws among them. `weights` stands for `exp_weights`, which
     * gives one weight per child; any `weights` is accepted here, and children
     * beyond `|weights|` are left out of the generator's input, as `zip` does.
     */
    method FillStarSector(sector: StarSector, stars: real, radius: real, weights: seq<nat>, gen: Generator)
      requires Valid() && sector.id in sectors && KeepsLinksAmongSiblings(gen)
      modifies this
      ensures State() == FillSpec(old(State()), sector.id, stars, radius, weights, gen)
      ensures Valid()
    {
      ghost var t0 := State();
      FillValid(t0, sector.id, stars, radius, weights, gen);
      var subStars := SubStars(stars);
      if subStars < STAR_THRESHOLD {
        FillWithSystems(sector, stars, radius, weights, gen);
      } else {
        FillWithFutures(sector, stars, radius, weights, gen);
      }
    }

    /** The branch of `fill_star_sector` for few stars: systems, linked uniquely. */
    method FillWithSystems(sector: StarSector, stars: real, radius: real, weights: seq<nat>, gen: Generator)
      requires IsLeafSector(stars)
      modifies this
      ensures State() == FillSpec(old(State()), sector.id, stars, radius, weights, gen)
    {
      var n := StarsAmount(stars);
      var first := InsertGalaxyObjects(System, n);
      InsertStarSystems(first, n, sector.id);
      var nodes := Zip(SystemHandles(first, n, sector.id), weights);
      var newLinks := gen(nodes, LinkTarget(stars), true);
      InsertStarLinks(newLinks);
    }

    /** The branch of `fill_star_sector` for many stars: `SUB_AMOUNT` futures. */
    method FillWithFutures(sector: StarSector, stars: real, radius: real, weights: seq<nat>, gen: Generator)
      requires !IsLeafSector(stars)
      modifies this
      ensures State() == FillSpec(old(State()), sector.id, stars, radius, weights, gen)
    {
      var first := InsertGalaxyObjects(SectorFuture, SUB_AMOUNT);
      InsertSectorFutures(first, sector.id, SubRadius(radius), SubStars(stars));
      var nodes := Zip(FutureHandles(first, sector.id, stars, radius), weights);
      var newLinks := gen(nodes, LinkTarget(stars), false);
      InsertStarLinks(newLinks);
    }

    /** `generate_star_sector`: create, then fill; a failed create leaves nothing behind. */
    method GenerateStarSector(stars: real, radius: real, parent: Option<Id>, weights: seq<nat>, gen: Generator)
      returns (r: Result<StarSector, Error>)
      requires Valid() && KeepsLinksAmongSiblings(gen)
      modifies this
      ensures State() == GenerateSpec(old(State()), stars, radius, parent, weights, gen).state
      ensures r == GenerateSpec(old(State()), stars, radius, parent, weights, gen).result
      ensures Valid()
    {
      ghost var t0 := State();
      CreateValid(t0, parent);
      r := CreateStarSector(parent);
      if r.Err? {
        return;
      }
      FillStarSector(r.value, stars, radius, weights, gen);
    }

    /**
     * `fulfill_star_sector_future`: the future's links and row go, its
     * registry row becomes a Sector, a sector row takes its id and parent, and
     * the new sector is filled with the future's stars and radius.
     */
    method FulfillStarSectorFuture(futureId: Id, weights: seq<nat>, gen: Generator)
      returns (r: Result<StarSector, Error>)
      requires Valid() && KeepsLinksAmongSiblings(gen)
      modifies this
      ensures State() == FulfilSpec(old(State()), futureId, weights, gen).state
      ensures r == FulfilSpec(old(State()), futureId, weights, gen).result
      ensures Valid()
    {
      ghost var t0 := State();
      if futureId !in futures {
        r := Err(NotFound);
        return;
      }
      var future := futures[futureId];
      var _ := DeleteLinksForObjects({futureId});
      futures := futures - {futureId};
      var updated := UpdateGalaxyObjectType(futureId, Sector);
      if updated.Err? {
        // Under the invariant every future is registered, so the update finds its row.
        assert false;
      }
      var sector := StarSector(futureId, Some(future.parentId));
      sectors := sectors[futureId := sector.parentId];
      assert State() == Convert(t0, futureId);
      FulfilStepValid(t0, futureId);
      FillStarSector(sector, future.stars, future.radius, weights, gen);
      r := Ok(sector);
    }
  }
}
